/** The credential graph (bindings/go/credentials: synced_dag.go, resolve_direct.go): identities as
    vertices of a directed acyclic graph, resolved recursively, with the results stored on the way. */
module Credentials {
  import opened Graphs
  import opened GraphState
  import Orders
  import Dag

  type Identity = map<string, string>

  /** A typed credential: direct properties, or another type with its fields (None for a null). */
  datatype Credential = Direct(properties: map<string, string>) | Typed(typ: string, fields: map<string, Option<string>>)

  datatype ResolveError = Cancelled | NoDirectCredentials | ChildMissing(id: string) | PluginFailed | NoScheme | NotConvertible

  datatype Result<V> = Ok(value: V) | Err(error: ResolveError)

  datatype Attribute = IdentityIs(identity: Identity) | CredentialsAre(credentials: Option<Credential>) | Kind(kind: string)

  const identityKey: string := "attributes.ocm.software/identity"
  const credentialsKey: string := "attributes.ocm.software/credentials"
  const kindKey: string := "kind"
  const cyclicOnly: string := "cyclic-only"
  const relevant: string := "resolution-relevant"

  type Vertices = State<string, Attribute>

  /** What the graph is given: how an identity prints, when a requested identity matches an existing
      one, what the plugin of a child identity makes of a request and the child's credentials, the
      order in which a map is iterated, and the scheme of credential types, if any. */
  datatype Config = Config(
    name: Identity -> string,
    matches: (Identity, Identity) -> bool,
    plugin: (Identity, Identity, Option<Credential>) -> Result<Option<Credential>>,
    listing: set<string> -> seq<string>,
    scheme: Option<string -> bool>)

  /** Iteration visits each key once. */
  ghost predicate Lists(c: Config) {
    && (forall s: set<string>, x {:trigger x in c.listing(s)} :: x in c.listing(s) <==> x in s)
    && (forall s: set<string> {:trigger c.listing(s)} :: Distinct(c.listing(s)))
  }

  function IdentityAt(s: Vertices, v: string): Option<Identity>
    requires v in s
  {
    if identityKey in s[v].attributes && s[v].attributes[identityKey].IdentityIs? then Some(s[v].attributes[identityKey].identity) else None
  }

  /** What getCredentials finds: a stored nil is as good as nothing. */
  function CredentialsAt(s: Vertices, v: string): Option<Credential>
    requires v in s
  {
    if credentialsKey in s[v].attributes && s[v].attributes[credentialsKey].CredentialsAre? then s[v].attributes[credentialsKey].credentials else None
  }

  predicate CyclicOnly(s: Vertices, v: string, e: string)
    requires v in s && e in s[v].edges
  {
    kindKey in s[v].edges[e] && s[v].edges[e][kindKey] == Kind(cyclicOnly)
  }

  /** Every vertex carries an identity that prints to its own ID. */
  ghost predicate Named(c: Config, s: Vertices) {
    forall v {:trigger IdentityAt(s, v)} :: v in s ==> IdentityAt(s, v).Some? && c.name(IdentityAt(s, v).value) == v
  }

  ghost predicate Fit(c: Config, s: Vertices) {
    Named(c, s) && Sound(Adj(s)) && Lists(c)
  }

  // ---- merging ----

  /** The fields a credential contributes. */
  function Fields(c: Credential): map<string, string> {
    match c
    case Direct(properties) => properties
    case Typed(_, fields) => map k | k in fields && k != "type" && fields[k].Some? :: fields[k].value
  }

  predicate Convertible(c: Config, cred: Credential) {
    cred.Direct? || (c.scheme.Some? && c.scheme.value(cred.typ))
  }

  function MergedFields(creds: seq<Credential>): map<string, string> {
    if creds == [] then map[] else MergedFields(creds[..|creds| - 1]) + Fields(creds[|creds| - 1])
  }

  /** What mergeTyped returns for several credentials. */
  function Merge(c: Config, creds: seq<Credential>): Result<Option<Credential>> {
    if |creds| == 0 then Ok(None)
    else if |creds| == 1 then Ok(Some(creds[0]))
    else if c.scheme == None then Err(NoScheme)
    else if exists i :: 0 <= i < |creds| && !Convertible(c, creds[i]) then Err(NotConvertible)
    else Ok(Some(Direct(MergedFields(creds))))
  }

  /** Each field comes from the last credential that has it. */
  lemma {:induction false} LastFieldWins(creds: seq<Credential>, k: string)
    ensures k in MergedFields(creds) <==> exists i :: 0 <= i < |creds| && k in Fields(creds[i])
    ensures forall i :: 0 <= i < |creds| && k in Fields(creds[i]) && (forall j :: i < j < |creds| ==> k !in Fields(creds[j])) ==>
      MergedFields(creds)[k] == Fields(creds[i])[k]
  {
    if creds != [] {
      var n := |creds| - 1;
      LastFieldWins(creds[..n], k);
      assert forall i :: 0 <= i < n ==> creds[..n][i] == creds[i];
    }
  }

  /** What a credential contributes: its properties, or of another type each field but the type that is
      not null. */
  ghost predicate HasField(cred: Credential, k: string) {
    match cred
    case Direct(properties) => k in properties
    case Typed(_, fields) => k != "type" && k in fields && fields[k].Some?
  }

  ghost predicate FieldIs(cred: Credential, k: string, x: string) {
    match cred
    case Direct(properties) => k in properties && properties[k] == x
    case Typed(_, fields) => k != "type" && k in fields && fields[k] == Some(x)
  }

  /** m has exactly the fields of all credentials, each from the last credential that has it. */
  ghost predicate UnionOf(creds: seq<Credential>, m: map<string, string>) {
    && (forall k :: k in m <==> exists i :: 0 <= i < |creds| && HasField(creds[i], k))
    && forall i, k :: 0 <= i < |creds| && HasField(creds[i], k) && (forall j :: i < j < |creds| ==> !HasField(creds[j], k)) ==>
      k in m && FieldIs(creds[i], k, m[k])
  }

  /** Nothing, the only credential, or all of them as one, which needs a scheme that knows the type of
      each that is not direct. */
  ghost predicate IsMerge(c: Config, creds: seq<Credential>, r: Result<Option<Credential>>) {
    && (|creds| == 0 ==> r == Ok(None)) && (|creds| == 1 ==> r == Ok(Some(creds[0])))
    && (|creds| >= 2 && c.scheme == None ==> r == Err(NoScheme))
    && (|creds| >= 2 && c.scheme.Some? && (exists i :: 0 <= i < |creds| && creds[i].Typed? && !c.scheme.value(creds[i].typ)) ==> r == Err(NotConvertible))
    && (|creds| >= 2 && c.scheme.Some? && (forall i :: 0 <= i < |creds| && creds[i].Typed? ==> c.scheme.value(creds[i].typ)) ==>
      r.Ok? && r.value.Some? && r.value.value.Direct? && UnionOf(creds, r.value.value.properties))
  }

  lemma FieldsHas(cred: Credential, k: string)
    ensures k in Fields(cred) <==> HasField(cred, k)
    ensures HasField(cred, k) ==> FieldIs(cred, k, Fields(cred)[k])
  {
  }

  lemma MergedUnion(creds: seq<Credential>)
    ensures UnionOf(creds, MergedFields(creds))
  {
    hide HasField, FieldIs, Fields;
    forall k ensures k in MergedFields(creds) <==> exists i :: 0 <= i < |creds| && HasField(creds[i], k) {
      LastFieldWins(creds, k);
      forall i | 0 <= i < |creds| ensures k in Fields(creds[i]) <==> HasField(creds[i], k) { FieldsHas(creds[i], k); }
    }
    forall i, k | 0 <= i < |creds| && HasField(creds[i], k) && (forall j :: i < j < |creds| ==> !HasField(creds[j], k))
      ensures k in MergedFields(creds) && FieldIs(creds[i], k, MergedFields(creds)[k])
    {
      LastFieldWins(creds, k);
      forall j | 0 <= j < |creds| ensures k in Fields(creds[j]) <==> HasField(creds[j], k) { FieldsHas(creds[j], k); }
      FieldsHas(creds[i], k);
    }
  }

  lemma MergeIs(c: Config, creds: seq<Credential>)
    ensures IsMerge(c, creds, Merge(c, creds))
  {
    hide UnionOf, MergedFields;
    MergedUnion(creds);
    assert forall i :: 0 <= i < |creds| ==> (Convertible(c, creds[i]) <==> creds[i].Direct? || (c.scheme.Some? && c.scheme.value(creds[i].typ)));
  }

  method MergeTyped(c: Config, creds: seq<Credential>) returns (r: Result<Option<Credential>>)
    ensures r == Merge(c, creds) && IsMerge(c, creds, r)
  {
    hide IsMerge;
    MergeIs(c, creds);
    if |creds| == 0 { return Ok(None); }
    if |creds| == 1 { return Ok(Some(creds[0])); }
    if c.scheme == None { return Err(NoScheme); }
    var merged: map<string, string> := map[];
    var i := 0;
    while i < |creds|
      invariant 0 <= i <= |creds| && merged == MergedFields(creds[..i])
      invariant forall j :: 0 <= j < i ==> Convertible(c, creds[j])
    {
      if !Convertible(c, creds[i]) { return Err(NotConvertible); }
      assert creds[..i + 1][..i] == creds[..i];
      merged := merged + Fields(creds[i]);
      i := i + 1;
    }
    assert creds[..i] == creds;
    r := Ok(Some(Direct(merged)));
  }

  // ---- resolution ----

  /** The vertices that can be reached from v. */
  ghost function Downstream(g: map<string, set<string>>, v: string): set<string> {
    set w | w in g.Keys && Reaches(g, v, w)
  }

  lemma DownstreamShrinks(g: map<string, set<string>>, v: string, w: string)
    requires Sound(g) && HasEdge(g, v, w)
    ensures |Downstream(g, w)| < |Downstream(g, v)|
  {
    forall x | x in Downstream(g, w) ensures x in Downstream(g, v) {
      EdgePath(g, v, w);
      ReachesTrans(g, v, w, x);
    }
    ReachesRefl(g, v);
    assert v in Downstream(g, v);
    if v in Downstream(g, w) { ClosedWalk(g, v, w); }
    SubsetSize(Downstream(g, w), Downstream(g, v) - {v});
  }

  lemma ClosedWalk(g: map<string, set<string>>, v: string, w: string)
    requires HasEdge(g, v, w) && Reaches(g, w, v)
    ensures !Acyclic(g)
  {
    var q: seq<string> :| PathFromTo(g, q, w, v);
    EdgePath(g, v, w);
    JoinPaths(g, [v, w], q);
    assert IsCycle(g, [v, w] + q[1..]);
  }

  /** What resolving the requested identity at vertex v gives if nothing is stored on the way. */
  ghost function Lookup(c: Config, s: Vertices, v: string, requested: Identity): Result<Option<Credential>>
    requires Fit(c, s) && v in s
    decreases |Downstream(Adj(s), v)|, 1, 0
  {
    if CredentialsAt(s, v).Some? then Ok(CredentialsAt(s, v)) else
    match Gather(c, s, v, requested, c.listing(s[v].edges.Keys))
    case Err(e) => Err(e)
    case Ok(creds) => Merge(c, creds)
  }

  /** The credentials the plugins give for the listed edges of v. */
  ghost function Gather(c: Config, s: Vertices, v: string, requested: Identity, edges: seq<string>): Result<seq<Credential>>
    requires Fit(c, s) && v in s && forall e :: e in edges ==> e in s[v].edges
    decreases |Downstream(Adj(s), v)|, 0, |edges|
  {
    if edges == [] then Ok([])
    else if CyclicOnly(s, v, edges[0]) then Gather(c, s, v, requested, edges[1..])
    else
      match Ask(c, s, v, requested, edges[0])
      case Err(e) => Err(e)
      case Ok(found) =>
        match Gather(c, s, v, requested, edges[1..])
        case Err(e) => Err(e)
        case Ok(rest) => Ok((if found.Some? then [found.value] else []) + rest)
  }

  /** What the plugin of the child e makes of the request. */
  ghost function Ask(c: Config, s: Vertices, v: string, requested: Identity, e: string): Result<Option<Credential>>
    requires Fit(c, s) && v in s && e in s[v].edges
    decreases |Downstream(Adj(s), v)|, 0, 0
  {
    assert HasEdge(Adj(s), v, e);
    assert e in s && IdentityAt(s, e).Some?;
    DownstreamShrinks(Adj(s), v, e);
    match Lookup(c, s, e, IdentityAt(s, e).value)
    case Err(x) => Err(x)
    case Ok(child) => c.plugin(IdentityAt(s, e).value, requested, child)
  }

  /** What the plugin of the child e answers: it is given the child's identity, the request, and what the
      child's own identity gets. */
  ghost predicate Answers(c: Config, s: Vertices, requested: Identity, e: string, a: Result<Option<Credential>>)
    requires Fit(c, s) && e in s && IdentityAt(s, e).Some?
  {
    match Lookup(c, s, e, IdentityAt(s, e).value)
    case Err(x) => a == Err(x)
    case Ok(child) => a == c.plugin(IdentityAt(s, e).value, requested, child)
  }

  ghost predicate ChildrenKnown(s: Vertices, v: string, edges: seq<string>)
    requires v in s
  {
    forall i {:trigger edges[i]} :: 0 <= i < |edges| ==> edges[i] in s[v].edges && edges[i] in s && IdentityAt(s, edges[i]).Some?
  }

  /** creds are, in the order of the edges, all credentials the plugins of the edges answer that are
      followed; at says which edge each is from. */
  ghost predicate Collects(c: Config, s: Vertices, v: string, requested: Identity, edges: seq<string>, creds: seq<Credential>, at: seq<nat>)
    requires Fit(c, s) && v in s && ChildrenKnown(s, v, edges)
  {
    && |at| == |creds| && (forall k, l :: 0 <= k < l < |at| ==> at[k] < at[l])
    && (forall k {:trigger at[k]} :: 0 <= k < |at| ==>
      at[k] < |edges| && !CyclicOnly(s, v, edges[at[k]]) && Answers(c, s, requested, edges[at[k]], Ok(Some(creds[k]))))
    && forall i {:trigger edges[i]} :: 0 <= i < |edges| && !CyclicOnly(s, v, edges[i]) ==> Answers(c, s, requested, edges[i], Ok(None)) || i in at
  }

  /** The edge at i is the first that is followed and fails, with x. */
  ghost predicate FailsAt(c: Config, s: Vertices, v: string, requested: Identity, edges: seq<string>, i: nat, x: ResolveError)
    requires Fit(c, s) && v in s && ChildrenKnown(s, v, edges)
  {
    && i < |edges| && !CyclicOnly(s, v, edges[i]) && Answers(c, s, requested, edges[i], Err(x))
    && forall j {:trigger edges[j]} :: 0 <= j < i && !CyclicOnly(s, v, edges[j]) ==> !exists y :: Answers(c, s, requested, edges[j], Err(y))
  }

  lemma ChildrenOf(c: Config, s: Vertices, v: string, edges: seq<string>)
    requires Fit(c, s) && v in s && forall e :: e in edges ==> e in s[v].edges
    ensures ChildrenKnown(s, v, edges)
  {
    forall i {:trigger edges[i]} | 0 <= i < |edges| ensures edges[i] in s[v].edges && edges[i] in s && IdentityAt(s, edges[i]).Some? {
      assert edges[i] in edges && HasEdge(Adj(s), v, edges[i]);
    }
  }

  lemma AskAnswers(c: Config, s: Vertices, v: string, requested: Identity, e: string)
    requires Fit(c, s) && v in s && e in s[v].edges && e in s && IdentityAt(s, e).Some?
    ensures forall a :: Answers(c, s, requested, e, a) <==> a == Ask(c, s, v, requested, e)
  {
    hide Lookup;
  }

  function Moved(a: seq<nat>): (r: seq<nat>)
    ensures |r| == |a| && forall k :: 0 <= k < |a| ==> r[k] == a[k] + 1
  {
    seq(|a|, k requires 0 <= k < |a| => a[k] + 1)
  }

  lemma MovedHas(a: seq<nat>, i: nat)
    ensures i in a <==> i + 1 in Moved(a)
    ensures 0 !in Moved(a)
  {
    if i in a {
      var k :| 0 <= k < |a| && a[k] == i;
      assert Moved(a)[k] == i + 1;
    }
  }

  /** The first edge gives nothing. */
  lemma TailCollects(c: Config, s: Vertices, v: string, requested: Identity, edges: seq<string>, creds: seq<Credential>, a: seq<nat>)
    requires Fit(c, s) && v in s && edges != [] && ChildrenKnown(s, v, edges) && ChildrenKnown(s, v, edges[1..])
    requires Collects(c, s, v, requested, edges[1..], creds, a) && (CyclicOnly(s, v, edges[0]) || Answers(c, s, requested, edges[0], Ok(None)))
    ensures Collects(c, s, v, requested, edges, creds, Moved(a))
  {
    hide Fit, Answers, CyclicOnly;
    var at := Moved(a);
    forall k {:trigger at[k]} | 0 <= k < |at|
      ensures at[k] < |edges| && !CyclicOnly(s, v, edges[at[k]]) && Answers(c, s, requested, edges[at[k]], Ok(Some(creds[k])))
    {
      assert edges[at[k]] == edges[1..][a[k]];
    }
    forall i {:trigger edges[i]} | 0 <= i < |edges| && !CyclicOnly(s, v, edges[i]) ensures Answers(c, s, requested, edges[i], Ok(None)) || i in at {
      if i > 0 {
        assert edges[i] == edges[1..][i - 1];
        MovedHas(a, i - 1);
      }
    }
  }

  /** The first edge gives one credential. */
  lemma HeadCollects(c: Config, s: Vertices, v: string, requested: Identity, edges: seq<string>, x: Credential, creds: seq<Credential>, a: seq<nat>)
    requires Fit(c, s) && v in s && edges != [] && ChildrenKnown(s, v, edges) && ChildrenKnown(s, v, edges[1..])
    requires Collects(c, s, v, requested, edges[1..], creds, a) && !CyclicOnly(s, v, edges[0]) && Answers(c, s, requested, edges[0], Ok(Some(x)))
    ensures Collects(c, s, v, requested, edges, [x] + creds, [0] + Moved(a))
  {
    hide Fit, Answers, CyclicOnly;
    var at, all := [0] + Moved(a), [x] + creds;
    forall k {:trigger at[k]} | 0 <= k < |at|
      ensures at[k] < |edges| && !CyclicOnly(s, v, edges[at[k]]) && Answers(c, s, requested, edges[at[k]], Ok(Some(all[k])))
    {
      if k > 0 { assert edges[at[k]] == edges[1..][a[k - 1]] && all[k] == creds[k - 1]; }
    }
    forall i {:trigger edges[i]} | 0 <= i < |edges| && !CyclicOnly(s, v, edges[i]) ensures Answers(c, s, requested, edges[i], Ok(None)) || i in at {
      if i > 0 {
        assert edges[i] == edges[1..][i - 1];
        MovedHas(a, i - 1);
      } else {
        assert at[0] == 0;
      }
    }
  }

  lemma TailFails(c: Config, s: Vertices, v: string, requested: Identity, edges: seq<string>, j: nat, x: ResolveError)
    requires Fit(c, s) && v in s && edges != [] && ChildrenKnown(s, v, edges) && ChildrenKnown(s, v, edges[1..])
    requires FailsAt(c, s, v, requested, edges[1..], j, x) && (CyclicOnly(s, v, edges[0]) || !exists y :: Answers(c, s, requested, edges[0], Err(y)))
    ensures FailsAt(c, s, v, requested, edges, j + 1, x)
  {
    hide Fit, Answers, CyclicOnly;
    assert forall k :: 0 < k < |edges| ==> edges[k] == edges[1..][k - 1];
  }

  lemma {:induction false} GatherCollects(c: Config, s: Vertices, v: string, requested: Identity, edges: seq<string>) returns (at: seq<nat>, i: nat)
    requires Fit(c, s) && v in s && forall e :: e in edges ==> e in s[v].edges
    ensures ChildrenKnown(s, v, edges)
    ensures Gather(c, s, v, requested, edges).Ok? ==> Collects(c, s, v, requested, edges, Gather(c, s, v, requested, edges).value, at)
    ensures Gather(c, s, v, requested, edges).Err? ==> FailsAt(c, s, v, requested, edges, i, Gather(c, s, v, requested, edges).error)
  {
    hide Fit, Lookup, Answers, Ask, ChildrenKnown, CyclicOnly;
    ChildrenOf(c, s, v, edges);
    at, i := [], 0;
    if edges != [] {
      ChildrenOf(c, s, v, edges[1..]);
      FirstChild(s, v, edges);
      AskAnswers(c, s, v, requested, edges[0]);
      var a, j := GatherCollects(c, s, v, requested, edges[1..]);
      var rest := Gather(c, s, v, requested, edges[1..]);
      if CyclicOnly(s, v, edges[0]) {
        at, i := Moved(a), j + 1;
        if rest.Ok? { TailCollects(c, s, v, requested, edges, rest.value, a); } else { TailFails(c, s, v, requested, edges, j, rest.error); }
      } else {
        GatherIs(c, s, v, requested, edges);
        match Ask(c, s, v, requested, edges[0])
        case Err(x) => assert FailsAt(c, s, v, requested, edges, 0, x);
        case Ok(None) =>
          at, i := Moved(a), j + 1;
          if rest.Ok? {
            TailCollects(c, s, v, requested, edges, rest.value, a);
            assert [] + rest.value == rest.value;
          } else {
            TailFails(c, s, v, requested, edges, j, rest.error);
          }
        case Ok(Some(x)) =>
          at, i := [0] + Moved(a), j + 1;
          if rest.Ok? { HeadCollects(c, s, v, requested, edges, x, rest.value, a); } else { TailFails(c, s, v, requested, edges, j, rest.error); }
      }
    }
  }

  lemma FirstChild(s: Vertices, v: string, edges: seq<string>)
    requires v in s && ChildrenKnown(s, v, edges) && edges != []
    ensures edges[0] in s[v].edges && edges[0] in s && IdentityAt(s, edges[0]).Some?
  {
  }

  /** What a vertex without credentials gets: the merge of all that the plugins of its followed edges
      answer, in the order of the edges, or the error of the first that fails. */
  lemma LookupMerges(c: Config, s: Vertices, v: string, requested: Identity)
    requires Fit(c, s) && v in s
    ensures CredentialsAt(s, v).Some? ==> Lookup(c, s, v, requested) == Ok(CredentialsAt(s, v))
    ensures ChildrenKnown(s, v, c.listing(s[v].edges.Keys))
    ensures CredentialsAt(s, v) == None ==>
      (exists creds, at :: Collects(c, s, v, requested, c.listing(s[v].edges.Keys), creds, at) && IsMerge(c, creds, Lookup(c, s, v, requested)))
      || (exists i: nat, x :: FailsAt(c, s, v, requested, c.listing(s[v].edges.Keys), i, x) && Lookup(c, s, v, requested) == Err(x))
  {
    hide Fit, Lookup, Gather, IsMerge, Collects, FailsAt, ChildrenKnown, Merge;
    LookupIs(c, s, v, requested);
    var edges := c.listing(s[v].edges.Keys);
    ListedOnce(c, s, v);
    var at, i := GatherCollects(c, s, v, requested, edges);
    match Gather(c, s, v, requested, edges)
    case Ok(creds) => MergeIs(c, creds);
    case Err(x) =>
  }

  // ---- stored results ----

  ghost predicate SameBut(s: Vertices, t: Vertices, v: string)
    requires v in s && v in t
  {
    t[v].edges == s[v].edges && IdentityAt(t, v) == IdentityAt(s, v) && t[v].ind == s[v].ind && t[v].outd == s[v].outd
  }

  /** What is stored at v in t was stored in s, or is what s gives for v's own identity. */
  ghost predicate Justified(c: Config, s: Vertices, t: Vertices, v: string)
    requires Fit(c, s) && v in s && v in t
  {
    || CredentialsAt(t, v) == CredentialsAt(s, v)
    || (CredentialsAt(s, v) == None && Lookup(c, s, v, IdentityAt(s, v).value) == Ok(CredentialsAt(t, v)))
  }

  /** t is s with results of exact lookups stored. */
  ghost predicate Filled(c: Config, s: Vertices, t: Vertices)
    requires Fit(c, s)
  {
    && s.Keys == t.Keys
    && forall v {:trigger Kept(c, s, t, v)} :: v in s ==> Kept(c, s, t, v)
  }

  ghost predicate Kept(c: Config, s: Vertices, t: Vertices, v: string)
    requires Fit(c, s) && v in s
  {
    v in t && SameBut(s, t, v) && Justified(c, s, t, v)
  }

  /** t is s with results of exact lookups stored, and at last r at v, if it is a result and v a vertex. */
  ghost predicate FilledAnd(c: Config, s: Vertices, t: Vertices, v: string, r: Result<Option<Credential>>)
    requires Fit(c, s)
  {
    Filled(c, s, t) || (r.Ok? && exists u :: Filled(c, s, u) && v in u && t == Stored(u, v, r.value))
  }

  lemma FilledAlone(c: Config, s: Vertices, t: Vertices, v: string, r: Result<Option<Credential>>)
    requires Fit(c, s) && Filled(c, s, t)
    ensures FilledAnd(c, s, t, v, r)
  {
  }

  lemma FilledStored(c: Config, s: Vertices, u: Vertices, v: string, r: Result<Option<Credential>>)
    requires Fit(c, s) && Filled(c, s, u) && v in u && r.Ok?
    ensures FilledAnd(c, s, Stored(u, v, r.value), v, r)
  {
  }

  lemma FilledFits(c: Config, s: Vertices, t: Vertices)
    requires Fit(c, s) && Filled(c, s, t)
    ensures Fit(c, t) && Adj(t) == Adj(s)
  {
    forall v | v in t ensures v in s.Keys && IdentityAt(s, v) == IdentityAt(t, v) && s[v].edges.Keys == t[v].edges.Keys {
      assert v in s.Keys && Kept(c, s, t, v);
    }
    assert Adj(t) == Adj(s);
  }

  /** Stored results do not change what a later lookup gives: at no vertex for its own identity,
      and for any request at a vertex where nothing new is stored. */
  lemma {:induction false} Transparent(c: Config, s: Vertices, t: Vertices, v: string, requested: Identity)
    requires Fit(c, s) && Filled(c, s, t) && Fit(c, t) && v in s && v in t
    requires Some(requested) == IdentityAt(s, v) || CredentialsAt(t, v) == CredentialsAt(s, v)
    ensures Lookup(c, t, v, requested) == Lookup(c, s, v, requested)
    decreases |Downstream(Adj(s), v)|, 1, 0
  {
    assert Kept(c, s, t, v);
    if CredentialsAt(t, v) == CredentialsAt(s, v) {
      TransparentEdges(c, s, t, v, requested, c.listing(s[v].edges.Keys));
    }
  }

  lemma {:induction false} TransparentEdges(c: Config, s: Vertices, t: Vertices, v: string, requested: Identity, edges: seq<string>)
    requires Fit(c, s) && Filled(c, s, t) && Fit(c, t) && v in s && v in t && SameBut(s, t, v) && forall e :: e in edges ==> e in s[v].edges
    ensures Gather(c, t, v, requested, edges) == Gather(c, s, v, requested, edges)
    decreases |Downstream(Adj(s), v)|, 0, |edges|
  {
    if edges != [] {
      var e := edges[0];
      assert e in s[v].edges;
      if !CyclicOnly(s, v, e) {
        assert HasEdge(Adj(s), v, e);
        DownstreamShrinks(Adj(s), v, e);
        assert e in s && Kept(c, s, t, e);
        assert IdentityAt(s, e).Some?;
        Transparent(c, s, t, e, IdentityAt(s, e).value);
      }
      TransparentEdges(c, s, t, v, requested, edges[1..]);
    }
  }

  lemma FilledRefl(c: Config, s: Vertices)
    requires Fit(c, s)
    ensures Filled(c, s, s)
  {
  }

  /** Storing the result of one more exact lookup. */
  lemma StoreOne(c: Config, s: Vertices, t: Vertices, u: Vertices, v: string, value: Option<Credential>)
    requires Fit(c, s) && Filled(c, s, t) && v in s && CredentialsAt(s, v) == None
    requires v in t && u == Stored(t, v, value)
    requires IdentityAt(s, v).Some? && Lookup(c, s, v, IdentityAt(s, v).value) == Ok(value)
    ensures Filled(c, s, u)
  {
    StoredAt(t, v, value);
    forall w {:trigger Kept(c, s, u, w)} | w in s ensures Kept(c, s, u, w) {
      assert Kept(c, s, t, w);
    }
  }

  /** The graph after setCredentials. */
  function Stored(t: Vertices, v: string, value: Option<Credential>): Vertices
    requires v in t
  {
    t[v := t[v].(attributes := t[v].attributes[credentialsKey := CredentialsAre(value)])]
  }

  lemma StoredAt(t: Vertices, v: string, value: Option<Credential>)
    requires v in t
    ensures var u := Stored(t, v, value);
      u.Keys == t.Keys && CredentialsAt(u, v) == value && SameBut(t, u, v)
      && forall w :: w in t && w != v ==> u[w] == t[w]
  {
    assert identityKey != credentialsKey by { assert |identityKey| != |credentialsKey|; }
  }

  /** The result is what the vertex holds from now on. */
  predicate HasResult(s: Vertices, v: string, value: Option<Credential>) {
    v in s && CredentialsAt(s, v) == value
  }

  lemma StoredHas(t: Vertices, v: string, value: Option<Credential>)
    requires v in t
    ensures HasResult(Stored(t, v, value), v, value)
  {
  }

  lemma StoredAlready(c: Config, s: Vertices, identity: Identity, at: Option<string>, creds: Option<Credential>)
    requires Named(c, s) && Found(c, s, identity, at) && at.Some? && at.value in s && creds == CredentialsAt(s, at.value)
    ensures c.name(identity) in s ==> HasResult(s, c.name(identity), creds)
  {
  }

  /** Storing results is transitive, so it may go on over any number of lookups. */
  lemma FilledTrans(c: Config, s: Vertices, t: Vertices, u: Vertices)
    requires Fit(c, s) && Filled(c, s, t) && Fit(c, t) && Filled(c, t, u)
    ensures Filled(c, s, u)
  {
    forall v {:trigger Kept(c, s, u, v)} | v in s ensures Kept(c, s, u, v) {
      assert v in t && Kept(c, s, t, v) && Kept(c, t, u, v);
      assert IdentityAt(s, v).Some?;
      if CredentialsAt(t, v) == None { Transparent(c, s, t, v, IdentityAt(s, v).value); }
    }
  }

  // ---- the graph in memory ----

  /** The vertex a request goes to: that of the identity itself, or else one the identity matches. */
  ghost predicate Found(c: Config, s: Vertices, identity: Identity, at: Option<string>)
    requires Named(c, s)
  {
    match at
    case None => c.name(identity) !in s && forall u {:trigger IdentityAt(s, u)} :: u in s ==> !c.matches(identity, IdentityAt(s, u).value)
    case Some(v) => v in s && (v == c.name(identity) || (c.name(identity) !in s && c.matches(identity, IdentityAt(s, v).value)))
  }

  ghost predicate EdgesListed(c: Config, s: Vertices, v: string)
    requires v in s
  {
    forall e :: e in c.listing(s[v].edges.Keys) ==> e in s[v].edges
  }

  lemma LookupIs(c: Config, s: Vertices, v: string, requested: Identity)
    requires Fit(c, s) && v in s
    ensures CredentialsAt(s, v).Some? ==> Lookup(c, s, v, requested) == Ok(CredentialsAt(s, v))
    ensures EdgesListed(c, s, v)
    ensures CredentialsAt(s, v).None? ==>
      (match Gather(c, s, v, requested, c.listing(s[v].edges.Keys))
       case Err(e) => Lookup(c, s, v, requested) == Err(e)
       case Ok(creds) => Lookup(c, s, v, requested) == Merge(c, creds))
  {
  }

  /** A bound on the recursion: what is downstream of the vertex, or the whole graph for a request
      that can only be a wildcard. */
  ghost function Bound(c: Config, s: Vertices, identity: Identity): nat {
    if c.name(identity) in s then |Downstream(Adj(s), c.name(identity))| else |s| + 1
  }

  lemma BoundShrinks(c: Config, s: Vertices, identity: Identity, v: string, e: string)
    requires Fit(c, s) && v in s && e in s[v].edges && (v == c.name(identity) || c.name(identity) !in s)
    ensures |Downstream(Adj(s), e)| < Bound(c, s, identity)
  {
    assert HasEdge(Adj(s), v, e);
    if v == c.name(identity) {
      DownstreamShrinks(Adj(s), v, e);
    } else {
      SubsetSize(Downstream(Adj(s), e), s.Keys);
    }
  }

  /** After i edges resolved holds what the first i gave. */
  ghost predicate Collecting(c: Config, s: Vertices, v: string, identity: Identity, edges: seq<string>, i: nat, resolved: seq<Credential>)
    requires Fit(c, s) && v in s && i <= |edges|
  {
    && (forall e :: e in edges ==> e in s[v].edges)
    && Gather(c, s, v, identity, edges) ==
      match Gather(c, s, v, identity, edges[i..])
      case Ok(rest) => Ok(resolved + rest)
      case Err(e) => Err(e)
  }

  lemma CollectingStarts(c: Config, s: Vertices, v: string, identity: Identity, edges: seq<string>)
    requires Fit(c, s) && v in s && edges == c.listing(s[v].edges.Keys)
    ensures EdgesListed(c, s, v) && Collecting(c, s, v, identity, edges, 0, [])
  {
    assert edges[0..] == edges;
    assert forall rest: seq<Credential> :: [] + rest == rest;
  }

  lemma CollectingEnds(c: Config, s: Vertices, v: string, identity: Identity, edges: seq<string>, resolved: seq<Credential>)
    requires Fit(c, s) && v in s && edges == c.listing(s[v].edges.Keys) && EdgesListed(c, s, v) && Collecting(c, s, v, identity, edges, |edges|, resolved)
    ensures Gather(c, s, v, identity, edges) == Ok(resolved)
  {
    assert resolved + [] == resolved;
  }

  /** The next edge, in s and in a graph t that is s with results stored. */
  lemma NextEdge(c: Config, s: Vertices, t: Vertices, v: string, identity: Identity, edges: seq<string>, i: nat, resolved: seq<Credential>)
    requires Fit(c, s) && Filled(c, s, t) && v in s && i < |edges| && Collecting(c, s, v, identity, edges, i, resolved)
    ensures edges[i] in s[v].edges && edges[i] in s && IdentityAt(s, edges[i]).Some?
    ensures v in t && edges[i] in t[v].edges && (CyclicOnly(t, v, edges[i]) <==> CyclicOnly(s, v, edges[i]))
    ensures CyclicOnly(s, v, edges[i]) ==> Collecting(c, s, v, identity, edges, i + 1, resolved)
  {
    var e, rest := edges[i], edges[i..];
    assert Kept(c, s, t, v);
    assert e in edges && HasEdge(Adj(s), v, e);
    assert e in s && IdentityAt(s, e).Some?;
    assert rest[0] == e && rest[1..] == edges[i + 1..];
  }

  /** What an edge that counts does to the credentials collected. */
  lemma EdgeAsked(c: Config, s: Vertices, v: string, identity: Identity, edges: seq<string>, i: nat, resolved: seq<Credential>,
    child: Identity, looked: Result<Option<Credential>>, asked: Result<Option<Credential>>)
    requires Fit(c, s) && v in s && i < |edges| && Collecting(c, s, v, identity, edges, i, resolved)
    requires edges[i] in s[v].edges && !CyclicOnly(s, v, edges[i])
    requires edges[i] in s && IdentityAt(s, edges[i]) == Some(child) && looked == Lookup(c, s, edges[i], child)
    requires asked == if looked.Err? then Err(looked.error) else c.plugin(child, identity, looked.value)
    ensures asked.Err? ==> (forall e :: e in edges ==> e in s[v].edges) && Gather(c, s, v, identity, edges) == Err(asked.error)
    ensures asked == Ok(None) ==> Collecting(c, s, v, identity, edges, i + 1, resolved)
    ensures asked.Ok? && asked.value.Some? ==> Collecting(c, s, v, identity, edges, i + 1, resolved + [asked.value.value])
  {
    hide Fit, Lookup, CyclicOnly;
    var e, rest := edges[i], edges[i..];
    assert rest[0] == e && rest[1..] == edges[i + 1..];
    assert Ask(c, s, v, identity, e) == asked;
    GatherIs(c, s, v, identity, rest);
    if asked.Ok? && asked.value.Some? {
      assert forall more: seq<Credential> :: resolved + ([asked.value.value] + more) == (resolved + [asked.value.value]) + more;
    }
    assert forall more: seq<Credential> :: [] + more == more;
  }

  lemma GatherIs(c: Config, s: Vertices, v: string, requested: Identity, edges: seq<string>)
    requires Fit(c, s) && v in s && edges != [] && (forall e :: e in edges ==> e in s[v].edges) && !CyclicOnly(s, v, edges[0])
    ensures forall e :: e in edges[1..] ==> e in s[v].edges
    ensures Gather(c, s, v, requested, edges) ==
      match Ask(c, s, v, requested, edges[0])
      case Err(e) => Err(e)
      case Ok(found) =>
        match Gather(c, s, v, requested, edges[1..])
        case Err(e) => Err(e)
        case Ok(rest) => Ok((if found.Some? then [found.value] else []) + rest)
  {
  }

  lemma ChildBound(c: Config, s: Vertices, t: Vertices, e: string)
    requires Fit(c, s) && Filled(c, s, t) && e in s
    ensures Fit(c, t) && Adj(t) == Adj(s) && e in t && IdentityAt(t, e) == IdentityAt(s, e) && IdentityAt(s, e).Some?
    ensures c.name(IdentityAt(s, e).value) == e && Bound(c, t, IdentityAt(s, e).value) == |Downstream(Adj(s), e)|
    ensures Lookup(c, t, e, IdentityAt(s, e).value) == Lookup(c, s, e, IdentityAt(s, e).value)
  {
    FilledFits(c, s, t);
    assert Kept(c, s, t, e);
    Transparent(c, s, t, e, IdentityAt(s, e).value);
  }

  lemma FoundExact(c: Config, s: Vertices, identity: Identity, at: Option<string>)
    requires Named(c, s) && Found(c, s, identity, at) && c.name(identity) in s
    ensures at == Some(c.name(identity))
  {
  }

  // ---- adding identities ----

  /** The edges x has once the edges into the new vertex were considered for `into` and those out of
      it for `out`. */
  function EdgesWith(c: Config, s: Vertices, identity: Identity, into: set<string>, out: set<string>, x: string): map<string, Attributes<Attribute>>
    requires x in s || x == c.name(identity)
  {
    var m := map[kindKey := Kind(cyclicOnly)];
    if x !in s then map u | u in s && u in out && IdentityAt(s, u).Some? && c.matches(IdentityAt(s, u).value, identity) :: m
    else if x in into && IdentityAt(s, x).Some? && c.matches(identity, IdentityAt(s, x).value) then s[x].edges[c.name(identity) := m]
    else s[x].edges
  }

  /** t is s with the identity added, and so far those edges. */
  ghost predicate Joined(c: Config, s: Vertices, t: Vertices, identity: Identity, into: set<string>, out: set<string>) {
    && t.Keys == s.Keys + {c.name(identity)} && IdentityAt(t, c.name(identity)) == Some(identity) && CredentialsAt(t, c.name(identity)) == None
    && (forall x {:trigger t[x]} :: x in t && x in s ==> t[x].attributes == s[x].attributes)
    && (forall x {:trigger t[x]} :: x in t ==> t[x].edges == EdgesWith(c, s, identity, into, out, x))
  }

  /** t is s with a vertex for the identity and, of the kind that resolution does not follow, exactly the
      edges to it from the vertices it matches, and from it to those that match it. */
  ghost predicate IdentityIsAdded(c: Config, s: Vertices, t: Vertices, identity: Identity)
    requires Named(c, s)
  {
    var node := c.name(identity);
    && node !in s && t.Keys == s.Keys + {node} && IdentityAt(t, node) == Some(identity) && CredentialsAt(t, node) == None
    && (forall x :: x in s ==> t[x].attributes == s[x].attributes)
    && (forall x :: x in s && c.matches(identity, IdentityAt(s, x).value) ==> t[x].edges == s[x].edges[node := map["kind" := Kind("cyclic-only")]])
    && (forall x :: x in s && !c.matches(identity, IdentityAt(s, x).value) ==> t[x].edges == s[x].edges)
    && (forall x :: x in t[node].edges <==> x in s && c.matches(IdentityAt(s, x).value, identity))
    && forall x :: x in t[node].edges ==> t[node].edges[x] == map["kind" := Kind("cyclic-only")]
  }

  lemma JoinedIsAdded(c: Config, s: Vertices, t: Vertices, identity: Identity, all: set<string>)
    requires Named(c, s) && c.name(identity) !in s && Joined(c, s, t, identity, all, all) && all == t.Keys
    ensures IdentityIsAdded(c, s, t, identity)
  {
    forall x | x in s ensures IdentityAt(s, x).Some? && t[x].attributes == s[x].attributes && x in all && t[x].edges == EdgesWith(c, s, identity, all, all, x) {
      assert IdentityAt(s, x).Some? && t[x] == t[x];
    }
    assert t[c.name(identity)].edges == EdgesWith(c, s, identity, all, all, c.name(identity));
  }

  /** An edge to a credential source is followed once it has been added as such, whatever it was before. */
  lemma RelevantIsFollowed(s: Vertices, t: Vertices, a: string, b: string)
    requires EdgeIsAdded(s, t, a, b, [map["kind" := Kind("resolution-relevant")]])
    ensures !CyclicOnly(t, a, b)
  {
    var m := map["kind" := Kind("resolution-relevant")];
    assert "kind" in [m][0];
    assert t[a].edges[b]["kind"] == [m][0]["kind"];
    assert |relevant| != |cyclicOnly|;
  }

  lemma KindOnly(m: Attributes<Attribute>)
    ensures Merged(map[], [m]) == m
  {
    assert Merged(map[], [m]) == Merged(map[] + m, []) == m;
  }

  lemma FitMeans(c: Config, s: Vertices)
    requires Fit(c, s)
    ensures Named(c, s) && Sound(Adj(s))
  {
  }

  lemma VertexLinked(c: Config, s: Vertices, identity: Identity)
    requires c.name(identity) !in s && Named(c, s)
    ensures var t := Apply(s, Op.AddVertex(c.name(identity), [map[identityKey := IdentityIs(identity)]]));
      Joined(c, s, t, identity, {}, {}) && Joined(c, s, t, identity, t.Keys - t.Keys, t.Keys - t.Keys) && Named(c, t) && t.Keys == s.Keys + {c.name(identity)}
  {
    KindOnly(map[identityKey := IdentityIs(identity)]);
    assert identityKey != credentialsKey by { assert |identityKey| != |credentialsKey|; }
    var t := Apply(s, Op.AddVertex(c.name(identity), [map[identityKey := IdentityIs(identity)]]));
    assert t.Keys - t.Keys == {};
    forall v {:trigger IdentityAt(t, v)} | v in t ensures IdentityAt(t, v).Some? && c.name(IdentityAt(t, v).value) == v {
      assert v in s ==> IdentityAt(s, v) == IdentityAt(t, v);
    }
  }

  lemma EdgeRows(s: Vertices, a: string, b: string, m: Attributes<Attribute>)
    requires Admits(s, a, b)
    ensures var t := Apply(s, Op.AddEdge(a, b, [m]));
      && t.Keys == s.Keys && (forall x {:trigger t[x]} :: x in s ==> t[x].attributes == s[x].attributes && (x != a ==> t[x].edges == s[x].edges))
      && (b !in s[a].edges ==> t[a].edges == s[a].edges[b := m])
  {
    KindOnly(m);
    AdmittedIsAdded(s, a, b, [m]);
    hide Admits, Apply;
  }

  lemma EdgeKeepsNames(c: Config, s: Vertices, a: string, b: string, m: Attributes<Attribute>)
    requires Named(c, s)
    ensures Named(c, Apply(s, Op.AddEdge(a, b, [m])))
  {
    if Admits(s, a, b) {
      EdgeRows(s, a, b, m);
      hide Admits, Apply;
      var t := Apply(s, Op.AddEdge(a, b, [m]));
      forall v {:trigger IdentityAt(t, v)} | v in t ensures IdentityAt(t, v).Some? && c.name(IdentityAt(t, v).value) == v {
        assert v in s && t[v].attributes == s[v].attributes && IdentityAt(s, v).Some?;
      }
    }
  }

  lemma RejectedSame(s: Vertices, a: string, b: string)
    ensures !Admits(s, a, b) ==> forall m :: Apply(s, Op.AddEdge(a, b, [m])) == s
  {
  }

  lemma LinkedIdentity(c: Config, s: Vertices, t: Vertices, identity: Identity, into: set<string>, out: set<string>, x: string)
    requires Named(c, s) && Joined(c, s, t, identity, into, out) && x in t && x != c.name(identity)
    ensures x in s && IdentityAt(t, x) == IdentityAt(s, x) && IdentityAt(s, x).Some?
  {
    assert t[x].attributes == s[x].attributes;
  }

  lemma OwnLinked(c: Config, s: Vertices, t: Vertices, identity: Identity, seen: set<string>)
    requires c.name(identity) !in s && Joined(c, s, t, identity, seen, seen)
    ensures Joined(c, s, t, identity, seen + {c.name(identity)}, seen + {c.name(identity)})
  {
  }

  lemma SkipInto(c: Config, s: Vertices, t: Vertices, identity: Identity, into: set<string>, out: set<string>, x: string)
    requires Joined(c, s, t, identity, into, out) && x in s && IdentityAt(s, x).Some? && !c.matches(identity, IdentityAt(s, x).value)
    ensures Joined(c, s, t, identity, into + {x}, out)
  {
  }

  lemma SkipOut(c: Config, s: Vertices, t: Vertices, identity: Identity, into: set<string>, out: set<string>, x: string)
    requires Joined(c, s, t, identity, into, out) && x in s && IdentityAt(s, x).Some? && !c.matches(IdentityAt(s, x).value, identity)
    ensures Joined(c, s, t, identity, into, out + {x})
  {
  }

  lemma EdgesWithInto(c: Config, s: Vertices, identity: Identity, into: set<string>, out: set<string>, x: string)
    requires x in s && x !in into && c.name(identity) !in s && IdentityAt(s, x).Some? && c.matches(identity, IdentityAt(s, x).value)
    ensures forall y {:trigger EdgesWith(c, s, identity, into + {x}, out, y)} :: y in s || y == c.name(identity) ==>
      EdgesWith(c, s, identity, into + {x}, out, y) ==
        if y == x then EdgesWith(c, s, identity, into, out, x)[c.name(identity) := map[kindKey := Kind(cyclicOnly)]] else EdgesWith(c, s, identity, into, out, y)
    ensures c.name(identity) !in EdgesWith(c, s, identity, into, out, x) || c.name(identity) in s[x].edges
  {
  }

  lemma EdgesWithOut(c: Config, s: Vertices, identity: Identity, into: set<string>, out: set<string>, x: string)
    requires x in s && x !in out && c.name(identity) !in s && IdentityAt(s, x).Some? && c.matches(IdentityAt(s, x).value, identity)
    ensures forall y {:trigger EdgesWith(c, s, identity, into, out + {x}, y)} :: y in s ==>
      EdgesWith(c, s, identity, into, out + {x}, y) == EdgesWith(c, s, identity, into, out, y)
    ensures EdgesWith(c, s, identity, into, out + {x}, c.name(identity)) == EdgesWith(c, s, identity, into, out, c.name(identity))[x := map[kindKey := Kind(cyclicOnly)]]
    ensures x !in EdgesWith(c, s, identity, into, out, c.name(identity))
  {
  }

  lemma AddInto(c: Config, s: Vertices, t: Vertices, identity: Identity, into: set<string>, out: set<string>, x: string)
    requires Joined(c, s, t, identity, into, out) && x in s && x !in into && c.name(identity) !in s && c.name(identity) !in s[x].edges
    requires IdentityAt(s, x).Some? && c.matches(identity, IdentityAt(s, x).value) && Admits(t, x, c.name(identity))
    ensures Joined(c, s, Apply(t, Op.AddEdge(x, c.name(identity), [map[kindKey := Kind(cyclicOnly)]])), identity, into + {x}, out)
  {
    hide Admits, Apply, EdgesWith;
    EdgesWithInto(c, s, identity, into, out, x);
    assert t[x].edges == EdgesWith(c, s, identity, into, out, x);
    EdgeRows(t, x, c.name(identity), map[kindKey := Kind(cyclicOnly)]);
  }

  lemma AddOut(c: Config, s: Vertices, t: Vertices, identity: Identity, into: set<string>, out: set<string>, x: string)
    requires Joined(c, s, t, identity, into, out) && x in s && x !in out && c.name(identity) !in s && IdentityAt(s, x).Some? && c.matches(IdentityAt(s, x).value, identity)
    requires Admits(t, c.name(identity), x)
    ensures Joined(c, s, Apply(t, Op.AddEdge(c.name(identity), x, [map[kindKey := Kind(cyclicOnly)]])), identity, into, out + {x})
  {
    hide Admits, Apply, EdgesWith;
    EdgesWithOut(c, s, identity, into, out, x);
    assert t[c.name(identity)].edges == EdgesWith(c, s, identity, into, out, c.name(identity));
    EdgeRows(t, c.name(identity), x, map[kindKey := Kind(cyclicOnly)]);
  }

  /** In a closed graph nothing leads to a vertex that is not there. */
  lemma NoEdgeOutside(s: Vertices, x: string, n: string)
    requires Sound(Adj(s)) && x in s && n !in s
    ensures n !in s[x].edges
  {
    assert n in Adj(s)[x] ==> n in Adj(s);
  }

  class SyncedDag {
    const dag: Dag.DirectedAcyclicGraph<string, Attribute>
    const config: Config

    ghost predicate Valid()
      reads dag, dag.Vertices.Values
    {
      dag.Valid() && Named(config, dag.Value()) && Lists(config)
    }

    lemma Fits()
      requires Valid()
      ensures Fit(config, dag.Value()) && dag.Value().Keys == dag.Vertices.Keys && Good(dag.Value())
    {
      dag.ValidMeans();
    }

    constructor (leq: (string, string) -> bool, config: Config)
      requires Orders.TotalOrder(leq) && Lists(config)
      ensures Valid() && this.config == config && dag.Value() == map[] && fresh(dag)
    {
      dag := new Dag.DirectedAcyclicGraph(leq);
      this.config := config;
    }

    method SetCredentials(id: string, credentials: Option<Credential>)
      requires Valid()
      modifies dag.Vertices.Values
      ensures Valid()
      ensures dag.Value() == if id in dag.Vertices then Stored(old(dag.Value()), id, credentials) else old(dag.Value())
    {
      if id !in dag.Vertices { return; }
      ghost var s := dag.Value();
      Fits();
      var v := dag.Vertices[id];
      SetAttribute(id, v, credentials, s);
      StoredGood(s, id, credentials);
      dag.HoldsMeans(Stored(s, id, credentials));
      StoredNamed(config, s, id, credentials);
    }

    method SetAttribute(id: string, v: Dag.Vertex<string, Attribute>, credentials: Option<Credential>, ghost s: Vertices)
      requires dag.Holds(s) && id in dag.Vertices && dag.Vertices[id] == v
      modifies v`Attributes
      ensures id in s && dag.Holds(Stored(s, id, credentials))
    {
      v.Attributes := v.Attributes[credentialsKey := CredentialsAre(credentials)];
    }

    method MatchAnyNode(identity: Identity) returns (v: Option<string>)
      requires Valid()
      ensures Named(config, dag.Value()) && Found(config, dag.Value(), identity, v)
      ensures v.Some? ==> v.value in dag.Value() && (v.value == config.name(identity) || config.name(identity) !in dag.Value())
    {
      Fits();
      if config.name(identity) in dag.Vertices { return Some(config.name(identity)); }
      var rest := dag.Vertices.Keys;
      while rest != {}
        invariant rest <= dag.Vertices.Keys
        invariant forall u {:trigger IdentityAt(dag.Value(), u)} :: u in dag.Value() && u !in rest ==> !config.matches(identity, IdentityAt(dag.Value(), u).value)
      {
        var id :| id in rest;
        rest := rest - {id};
        var attributes := dag.Vertices[id].Attributes;
        if identityKey in attributes && attributes[identityKey].IdentityIs? && config.matches(identity, attributes[identityKey].identity) {
          assert IdentityAt(dag.Value(), id) == Some(attributes[identityKey].identity);
          return Some(id);
        }
        assert IdentityAt(dag.Value(), id).Some?;
      }
      v := None;
    }

    /** Resolution terminates, and gives what a resolution without stored results gives in the graph
        it started from, or is cut short because its context has ended (it is live if that does not
        happen during the call). What it stores on the way is justified in any case; the result itself
        is stored at the vertex the request prints to, if there is one, and is justified there if the
        request is the vertex's own identity. AliasExactly tells what it can change otherwise. */
    method ResolveFromGraph(identity: Identity, live: bool) returns (r: Result<Option<Credential>>, ghost at: Option<string>)
      requires Valid()
      modifies dag.Vertices.Values
      ensures Valid() && Fit(config, old(dag.Value()))
      ensures live || r != Err(Cancelled) ==> Found(config, old(dag.Value()), identity, at)
      ensures at.Some? ==> at.value in old(dag.Value())
      ensures live || r != Err(Cancelled) ==> r == if at == None then Err(NoDirectCredentials) else Lookup(config, old(dag.Value()), at.value, identity)
      ensures FilledAnd(config, old(dag.Value()), dag.Value(), config.name(identity), r)
      ensures (config.name(identity) in old(dag.Value()) ==> IdentityAt(old(dag.Value()), config.name(identity)) == Some(identity)) ==>
        Filled(config, old(dag.Value()), dag.Value())
      ensures r.Ok? && config.name(identity) in old(dag.Value()) ==> HasResult(dag.Value(), config.name(identity), r.value)
      decreases Bound(config, dag.Value(), identity), 1
    {
      hide *;
      ghost var s := dag.Value();
      Fits();
      FilledRefl(config, s);
      FilledAlone(config, s, s, config.name(identity), Err(Cancelled));
      FilledAlone(config, s, s, config.name(identity), Err(NoDirectCredentials));
      var over := *;
      if !live && over { return Err(Cancelled), None; }
      var v := MatchAnyNode(identity);
      at := v;
      if v == None { return Err(NoDirectCredentials), at; }
      var creds := GetCredentials(v.value);
      LookupIs(config, s, v.value, identity);
      FilledAlone(config, s, s, config.name(identity), Ok(creds));
      StoredAlready(config, s, identity, at, creds);
      if creds.Some? { return Ok(creds), at; }
      var resolved := ResolveEdges(identity, v.value, live);
      ghost var t := dag.Value();
      if resolved.Err? {
        FilledAlone(config, s, t, config.name(identity), Err(resolved.error));
        return Err(resolved.error), at;
      }
      r := MergeTyped(config, resolved.value);
      FilledAlone(config, s, t, config.name(identity), r);
      if r.Err? { return; }
      FilledKeys(config, s, t);
      SetCredentials(config.name(identity), r.value);
      if config.name(identity) in t {
        FilledStored(config, s, t, config.name(identity), r);
        StoredHas(t, config.name(identity), r.value);
      }
      if config.name(identity) in s && IdentityAt(s, config.name(identity)) == Some(identity) {
        FoundExact(config, s, identity, at);
        StoreOne(config, s, t, dag.Value(), config.name(identity), r.value);
      }
    }

    /** Resolves the child at e, once results of the loop so far are stored, as it would be in s. */
    method ResolveChild(e: string, live: bool, ghost s: Vertices) returns (child: Identity, r: Result<Option<Credential>>)
      requires Valid() && Fit(config, s) && Filled(config, s, dag.Value()) && e in s && e in dag.Value()
      modifies dag.Vertices.Values
      ensures Valid() && Filled(config, s, dag.Value())
      ensures IdentityAt(s, e) == Some(child) && (live || r != Err(Cancelled) ==> r == Lookup(config, s, e, child))
      decreases |Downstream(Adj(dag.Value()), e)|, 2
    {
      hide *;
      ghost var t := dag.Value();
      ChildBound(config, s, t, e);
      var id := GetIdentity(e);
      child := id.value;
      ghost var at;
      r, at := ResolveFromGraph(child, live);
      if live || r != Err(Cancelled) { FoundExact(config, t, child, at); }
      FilledTrans(config, s, t, dag.Value());
    }

    method AddEdge(from: string, to: string, attributes: Attributes<Attribute>) returns (err: Option<Dag.GraphError<string>>)
      requires Valid()
      modifies dag.Vertices.Values
      ensures Valid() && dag.Value() == Apply(old(dag.Value()), Op.AddEdge(from, to, [attributes]))
      ensures if err == None then EdgeIsAdded(old(dag.Value()), dag.Value(), from, to, [attributes]) else dag.Value() == old(dag.Value())
      ensures err == None <==> Admits(old(dag.Value()), from, to)
    {
      hide *;
      ghost var s := dag.Value();
      ValidTo();
      err := dag.AddEdge(from, to, [attributes]);
      EdgeKeepsNames(config, s, from, to, attributes);
      ValidFrom();
    }

    lemma ValidFrom()
      ensures dag.Valid() && Named(config, dag.Value()) && Lists(config) ==> Valid()
    {
    }

    lemma ValidTo()
      requires Valid()
      ensures dag.Valid() && Named(config, dag.Value()) && Lists(config) && dag.Value().Keys == dag.Vertices.Keys
    {
      Fits();
    }

    /** Adds the identity as a vertex, with edges between it and the identities it matches or that
        match it. Existing identities, credentials and edges stay as they are, and with an identity
        that matches the new one both ways the second edge is rejected. */
    method AddIdentity(identity: Identity) returns (err: Option<Dag.GraphError<string>>)
      requires Valid()
      modifies dag, dag.Vertices.Values
      ensures Valid() && Named(config, old(dag.Value()))
      ensures config.name(identity) in old(dag.Value()) ==> dag.Value() == old(dag.Value()) && err == None
      ensures config.name(identity) !in old(dag.Value()) ==>
        exists into, out :: Joined(config, old(dag.Value()), dag.Value(), identity, into, out) && (err == None ==> into == dag.Value().Keys == out)
      ensures config.name(identity) !in old(dag.Value()) && err == None ==> IdentityIsAdded(config, old(dag.Value()), dag.Value(), identity)
    {
      hide *;
      ValidTo();
      Fits();
      ghost var s := dag.Value();
      FitMeans(config, s);
      var node := config.name(identity);
      if node in dag.Vertices { return None; }
      err := dag.AddVertex(node, [map[identityKey := IdentityIs(identity)]]);
      VertexLinked(config, s, identity);
      ValidFrom();
      ValidTo();
      ghost var vertices := dag.Vertices;
      var rest := dag.Vertices.Keys;
      ghost var all := rest;
      while rest != {}
        invariant rest <= all && Valid() && err == None && dag.Vertices == vertices && all == dag.Value().Keys
        invariant Joined(config, s, dag.Value(), identity, all - rest, all - rest)
      {
        var id :| id in rest;
        ghost var seen := all - rest;
        rest := rest - {id};
        ghost var into, out;
        err, into, out := LinkMatches(identity, id, s, seen);
        ValidTo();
        if err != None { return; }
        assert seen + {id} == all - rest;
      }
      assert all - rest == all;
      JoinedIsAdded(config, s, dag.Value(), identity, all);
    }

    /** The edges between the new vertex and one other. */
    method LinkMatches(identity: Identity, id: string, ghost s: Vertices, ghost seen: set<string>)
      returns (err: Option<Dag.GraphError<string>>, ghost into: set<string>, ghost out: set<string>)
      requires Valid() && Named(config, s) && Sound(Adj(s)) && config.name(identity) !in s && id !in seen && id in dag.Value()
      requires Joined(config, s, dag.Value(), identity, seen, seen)
      modifies dag.Vertices.Values
      ensures Valid() && Joined(config, s, dag.Value(), identity, into, out)
      ensures err == None ==> into == seen + {id} == out
    {
      hide *;
      into, out, err := seen, seen, None;
      var node := config.name(identity);
      if id == node {
        OwnLinked(config, s, dag.Value(), identity, seen);
        return None, seen + {id}, seen + {id};
      }
      LinkedIdentity(config, s, dag.Value(), identity, seen, seen, id);
      var existing := GetIdentity(id);
      if config.matches(identity, existing.value) {
        ghost var t := dag.Value();
        err := AddEdge(id, node, map[kindKey := Kind(cyclicOnly)]);
        if err != None { RejectedSame(t, id, node); return; }
        NoEdgeOutside(s, id, node);
        AddInto(config, s, t, identity, seen, seen, id);
      } else {
        SkipInto(config, s, dag.Value(), identity, seen, seen, id);
      }
      into := seen + {id};
      if config.matches(existing.value, identity) {
        ghost var t := dag.Value();
        err := AddEdge(node, id, map[kindKey := Kind(cyclicOnly)]);
        if err != None { RejectedSame(t, node, id); return; }
        AddOut(config, s, t, identity, into, seen, id);
      } else {
        SkipOut(config, s, dag.Value(), identity, into, seen, id);
      }
      out := seen + {id};
    }

    method GetCredentials(id: string) returns (r: Option<Credential>)
      requires Valid()
      ensures r == if id in dag.Value() then CredentialsAt(dag.Value(), id) else None
    {
      if id !in dag.Vertices { return None; }
      var attributes := dag.Vertices[id].Attributes;
      r := if credentialsKey in attributes && attributes[credentialsKey].CredentialsAre? then attributes[credentialsKey].credentials else None;
    }

    method GetIdentity(id: string) returns (r: Option<Identity>)
      requires Valid()
      ensures r == if id in dag.Value() then IdentityAt(dag.Value(), id) else None
    {
      if id !in dag.Vertices { return None; }
      var attributes := dag.Vertices[id].Attributes;
      r := if identityKey in attributes && attributes[identityKey].IdentityIs? then Some(attributes[identityKey].identity) else None;
    }

    method Edges(v: string) returns (edges: seq<string>)
      requires v in dag.Value()
      ensures edges == config.listing(dag.Value()[v].edges.Keys)
    {
      edges := config.listing(dag.Vertices[v].Edges.Keys);
    }

    method IsCyclicOnly(v: string, e: string) returns (skip: bool)
      requires v in dag.Value() && e in dag.Value()[v].edges
      ensures skip == CyclicOnly(dag.Value(), v, e)
    {
      var attributes := dag.Vertices[v].Edges[e];
      skip := kindKey in attributes && attributes[kindKey] == Kind(cyclicOnly);
    }

    /** The loop over the edges of v. */
    method ResolveEdges(identity: Identity, v: string, live: bool) returns (r: Result<seq<Credential>>)
      requires Valid() && v in dag.Value() && Fit(config, dag.Value())
      requires v == config.name(identity) || config.name(identity) !in dag.Value()
      modifies dag.Vertices.Values
      ensures Valid() && Fit(config, old(dag.Value())) && Filled(config, old(dag.Value()), dag.Value())
      ensures v in old(dag.Value()) && EdgesListed(config, old(dag.Value()), v)
      ensures live || r != Err(Cancelled) ==> r == Gather(config, old(dag.Value()), v, identity, config.listing(old(dag.Value())[v].edges.Keys))
      decreases Bound(config, dag.Value(), identity), 0
    {
      hide *;
      ghost var s := dag.Value();
      FilledRefl(config, s);
      var edges := Edges(v);
      var resolved: seq<Credential> := [];
      var i := 0;
      CollectingStarts(config, s, v, identity, edges);
      while i < |edges|
        invariant 0 <= i <= |edges| && Valid() && Filled(config, s, dag.Value())
        invariant Collecting(config, s, v, identity, edges, i, resolved)
      {
        var e := edges[i];
        NextEdge(config, s, dag.Value(), v, identity, edges, i, resolved);
        var skip := IsCyclicOnly(v, e);
        if !skip {
          BoundShrinks(config, s, identity, v, e);
          ChildBound(config, s, dag.Value(), e);
          var child, childCredentials := ResolveChild(e, live, s);
          var credentials := if childCredentials.Err? then Err(childCredentials.error) else config.plugin(child, identity, childCredentials.value);
          if !live && childCredentials == Err(Cancelled) { return Err(Cancelled); }
          EdgeAsked(config, s, v, identity, edges, i, resolved, child, childCredentials, credentials);
          if credentials.Err? { return Err(credentials.error); }
          if credentials.value.Some? { resolved := resolved + [credentials.value.value]; }
        }
        i := i + 1;
      }
      CollectingEnds(config, s, v, identity, edges, resolved);
      r := Ok(resolved);
    }
  }

  lemma FilledKeys(c: Config, s: Vertices, t: Vertices)
    requires Fit(c, s) && Filled(c, s, t)
    ensures s.Keys == t.Keys && forall x :: x in s <==> x in t
  {
  }

  lemma StoredNamed(c: Config, s: Vertices, id: string, credentials: Option<Credential>)
    requires Named(c, s) && id in s
    ensures Named(c, Stored(s, id, credentials))
  {
    StoredAt(s, id, credentials);
    var u := Stored(s, id, credentials);
    forall v {:trigger IdentityAt(u, v)} | v in u ensures IdentityAt(u, v).Some? && c.name(IdentityAt(u, v).value) == v {
      assert IdentityAt(s, v).Some?;
    }
  }

  lemma StoredGood(s: Vertices, id: string, credentials: Option<Credential>)
    requires Good(s) && id in s
    ensures Good(Stored(s, id, credentials)) && Adj(Stored(s, id, credentials)) == Adj(s)
  {
    var u := Stored(s, id, credentials);
    assert Adj(u) == Adj(s) && InDegrees(u) == InDegrees(s) && OutDegrees(u) == OutDegrees(s);
  }

  // ---- transparency ----

  /** Over any number of lookups that store justified results, a lookup of a vertex's own identity
      gives at the end what it gave at the start. */
  lemma {:induction false} LaterLookupsAgree(c: Config, trace: seq<Vertices>, v: string)
    requires trace != [] && Fit(c, trace[0]) && v in trace[0]
    requires forall i {:trigger trace[i]} :: 0 < i < |trace| ==> Fit(c, trace[i - 1]) ==> Filled(c, trace[i - 1], trace[i])
    ensures Fit(c, trace[|trace| - 1]) && Filled(c, trace[0], trace[|trace| - 1]) && v in trace[|trace| - 1]
    ensures Lookup(c, trace[|trace| - 1], v, IdentityAt(trace[0], v).value) == Lookup(c, trace[0], v, IdentityAt(trace[0], v).value)
  {
    hide Lookup, Fit, Filled;
    var s, t := trace[0], trace[|trace| - 1];
    FitMeans(c, s);
    assert IdentityAt(s, v).Some?;
    if |trace| == 1 {
      FilledRefl(c, s);
    } else {
      var u := trace[|trace| - 2];
      LaterLookupsAgree(c, trace[..|trace| - 1], v);
      FilledTrans(c, s, u, t);
      FilledFits(c, s, t);
      FilledKeys(c, s, t);
      Transparent(c, s, t, v, IdentityAt(s, v).value);
    }
  }

  /** For another request, which reached v by a wildcard match, the result changes exactly when v's
      own result was stored meanwhile and is not what the request would have got. */
  lemma WildcardAgreesExactly(c: Config, s: Vertices, t: Vertices, v: string, requested: Identity)
    requires Fit(c, s) && Filled(c, s, t) && Fit(c, t) && v in s && v in t
    ensures Lookup(c, t, v, requested) == Lookup(c, s, v, requested) <==>
      CredentialsAt(t, v) == CredentialsAt(s, v) || Lookup(c, s, v, requested) == Lookup(c, s, v, IdentityAt(s, v).value)
  {
    assert Kept(c, s, t, v);
    if CredentialsAt(t, v) == CredentialsAt(s, v) {
      Transparent(c, s, t, v, requested);
    }
  }

  /** The plugins asked at v, whatever they are given for the child, do not tell the requests apart. */
  ghost predicate SameAnswers(c: Config, s: Vertices, v: string, a: Identity, b: Identity)
    requires v in s
  {
    forall e, creds {:trigger c.plugin(IdentityAt(s, e).value, a, creds)} ::
      e in s[v].edges && e in s && !CyclicOnly(s, v, e) && IdentityAt(s, e).Some? ==>
        c.plugin(IdentityAt(s, e).value, a, creds) == c.plugin(IdentityAt(s, e).value, b, creds)
  }

  /** Then both requests get the same there, now and after any results have been stored. */
  lemma SameAnswersAgree(c: Config, s: Vertices, t: Vertices, v: string, requested: Identity)
    requires Fit(c, s) && Filled(c, s, t) && Fit(c, t) && v in s && v in t && IdentityAt(s, v).Some?
    requires SameAnswers(c, s, v, requested, IdentityAt(s, v).value)
    ensures Lookup(c, s, v, requested) == Lookup(c, s, v, IdentityAt(s, v).value)
    ensures Lookup(c, t, v, requested) == Lookup(c, s, v, requested)
  {
    hide SameAnswers;
    SameGathered(c, s, v, requested, IdentityAt(s, v).value, c.listing(s[v].edges.Keys));
    WildcardAgreesExactly(c, s, t, v, requested);
  }

  lemma {:induction false} SameGathered(c: Config, s: Vertices, v: string, a: Identity, b: Identity, edges: seq<string>)
    requires Fit(c, s) && v in s && (forall e :: e in edges ==> e in s[v].edges) && SameAnswers(c, s, v, a, b)
    ensures Gather(c, s, v, a, edges) == Gather(c, s, v, b, edges)
  {
    hide Lookup;
    if edges != [] {
      assert edges[0] in edges && HasEdge(Adj(s), v, edges[0]);
      assert edges[0] in s && IdentityAt(s, edges[0]).Some?;
      SameGathered(c, s, v, a, b, edges[1..]);
    }
  }

  // ---- which vertices a request can change at ----

  /** With the plugin q, stored results never change what the request gets at v. */
  ghost predicate Steady(c: Config, s: Vertices, v: string, requested: Identity, q: (Identity, Identity, Option<Credential>) -> Result<Option<Credential>>)
    requires v in s
  {
    var d := c.(plugin := q);
    Fit(d, s) ==> forall t :: Filled(d, s, t) && Fit(d, t) && v in t ==> Lookup(d, t, v, requested) == Lookup(d, s, v, requested)
  }

  /** v holds credentials, or has no edge that is followed. */
  ghost predicate Settled(s: Vertices, v: string)
    requires v in s
  {
    CredentialsAt(s, v).Some? || forall e :: e in s[v].edges ==> CyclicOnly(s, v, e)
  }

  /** Whatever the plugins answer, a request for an identity that is no vertex gets the same at v
      before and after any results have been stored, exactly if v is settled. */
  lemma WildcardExactly(c: Config, s: Vertices, v: string, requested: Identity)
    requires Fit(c, s) && v in s && c.name(requested) !in s
    ensures (forall q :: Steady(c, s, v, requested, q)) <==> Settled(s, v)
  {
    hide Fit, Filled, Lookup, Settled, Steady;
    if Settled(s, v) {
      forall q ensures Steady(c, s, v, requested, q) {
        SettledSteady(c, s, v, requested, q);
      }
    } else {
      assert exists e :: e in s[v].edges && !CyclicOnly(s, v, e) && CredentialsAt(s, v) == None by { Unsettled(s, v); }
      var e :| e in s[v].edges && !CyclicOnly(s, v, e) && CredentialsAt(s, v) == None;
      EdgeIdentity(c, s, v, e);
      TellingUnsteady(c, s, v, e, requested);
    }
  }

  // ---- requests that print like a vertex ----

  /** The request prints like v without being its identity. */
  ghost predicate Alias(c: Config, s: Vertices, v: string, requested: Identity) {
    v in s && c.name(requested) == v && IdentityAt(s, v) != Some(requested)
  }

  /** With the plugin q, storing what the request gets at v does not change what v's own identity gets. */
  ghost predicate AliasSteady(c: Config, s: Vertices, v: string, alias: Identity, q: (Identity, Identity, Option<Credential>) -> Result<Option<Credential>>)
    requires v in s && IdentityAt(s, v).Some?
  {
    var d := c.(plugin := q);
    Fit(d, s) && Lookup(d, s, v, alias).Ok? ==>
      var t := Stored(s, v, Lookup(d, s, v, alias).value);
      Fit(d, t) && Lookup(d, t, v, IdentityAt(s, v).value) == Lookup(d, s, v, IdentityAt(s, v).value)
  }

  /** A request that prints like v without being its identity hits v exactly, so that its result is
      stored there. Whatever the plugins answer, that never changes a lookup by v's own identity,
      exactly if v is settled. */
  lemma AliasExactly(c: Config, s: Vertices, v: string, alias: Identity)
    requires Fit(c, s) && Alias(c, s, v, alias) && IdentityAt(s, v).Some?
    ensures Found(c, s, alias, Some(v))
    ensures (forall q :: AliasSteady(c, s, v, alias, q)) <==> Settled(s, v)
  {
    hide Filled, Lookup, Settled, AliasSteady, Sound;
    if Settled(s, v) {
      forall q ensures AliasSteady(c, s, v, alias, q) {
        SettledAliasSteady(c, s, v, alias, q);
      }
    } else {
      assert exists e :: e in s[v].edges && !CyclicOnly(s, v, e) && CredentialsAt(s, v) == None by { Unsettled(s, v); }
      var e :| e in s[v].edges && !CyclicOnly(s, v, e) && CredentialsAt(s, v) == None;
      EdgeIdentity(c, s, v, e);
      TellingAlias(c, s, v, e, alias);
    }
  }

  /** At a settled vertex all requests get the same. */
  lemma SettledSame(c: Config, s: Vertices, v: string, a: Identity, b: Identity)
    requires Fit(c, s) && v in s && Settled(s, v)
    ensures Lookup(c, s, v, a) == Lookup(c, s, v, b)
    ensures Lookup(c, s, v, a) == Ok(CredentialsAt(s, v))
  {
    hide Fit, Gather;
    LookupIs(c, s, v, a);
    LookupIs(c, s, v, b);
    ListedOnce(c, s, v);
    if CredentialsAt(s, v) == None {
      NothingFollowed(c, s, v, a, c.listing(s[v].edges.Keys));
      NothingFollowed(c, s, v, b, c.listing(s[v].edges.Keys));
    }
  }

  lemma StoredFits(c: Config, s: Vertices, v: string, value: Option<Credential>)
    requires Fit(c, s) && v in s
    ensures Fit(c, Stored(s, v, value))
  {
    StoredNamed(c, s, v, value);
    assert Adj(Stored(s, v, value)) == Adj(s);
  }

  lemma SettledAliasSteady(c: Config, s: Vertices, v: string, alias: Identity, q: (Identity, Identity, Option<Credential>) -> Result<Option<Credential>>)
    requires v in s && Settled(s, v) && IdentityAt(s, v).Some?
    ensures AliasSteady(c, s, v, alias, q)
  {
    hide Fit, Lookup;
    var d := c.(plugin := q);
    if Fit(d, s) {
      var own := IdentityAt(s, v).value;
      SettledSame(d, s, v, alias, own);
      var t := Stored(s, v, CredentialsAt(s, v));
      StoredFits(d, s, v, CredentialsAt(s, v));
      StoredAt(s, v, CredentialsAt(s, v));
      assert forall e :: e in t[v].edges ==> (CyclicOnly(t, v, e) <==> CyclicOnly(s, v, e));
      SettledSame(d, t, v, own, own);
    }
  }

  lemma TellingAlias(c: Config, s: Vertices, v: string, e: string, alias: Identity)
    requires Fit(c, s) && Alias(c, s, v, alias) && CredentialsAt(s, v) == None
    requires e in s[v].edges && !CyclicOnly(s, v, e) && e in s && IdentityAt(s, e).Some? && IdentityAt(s, v).Some?
    ensures !AliasSteady(c, s, v, alias, Telling(IdentityAt(s, e).value, IdentityAt(s, v).value, alias))
  {
    hide Fit, Lookup, Telling;
    var own := IdentityAt(s, v).value;
    var d := c.(plugin := Telling(IdentityAt(s, e).value, own, alias));
    SameFit(c, s, d.plugin);
    TellingLookup(d, s, v, e, own, alias, own);
    TellingLookup(d, s, v, e, own, alias, alias);
    var t := Stored(s, v, Some(Direct(alias)));
    StoredFits(d, s, v, Some(Direct(alias)));
    StoredAt(s, v, Some(Direct(alias)));
    LookupIs(d, t, v, own);
  }

  lemma Unsettled(s: Vertices, v: string)
    requires v in s && !Settled(s, v)
    ensures exists e :: e in s[v].edges && !CyclicOnly(s, v, e) && CredentialsAt(s, v) == None
  {
  }

  lemma SettledSteady(c: Config, s: Vertices, v: string, requested: Identity, q: (Identity, Identity, Option<Credential>) -> Result<Option<Credential>>)
    requires v in s && Settled(s, v)
    ensures Steady(c, s, v, requested, q)
  {
    var d := c.(plugin := q);
    if Fit(d, s) {
      forall t | Filled(d, s, t) && Fit(d, t) && v in t ensures Lookup(d, t, v, requested) == Lookup(d, s, v, requested) {
        assert Kept(d, s, t, v);
        if CredentialsAt(s, v) == None { NothingFollowed(d, s, v, IdentityAt(s, v).value, d.listing(s[v].edges.Keys)); }
        hide Fit, Filled, Lookup;
        Transparent(d, s, t, v, requested);
      }
    }
  }

  lemma {:induction false} NothingFollowed(c: Config, s: Vertices, v: string, requested: Identity, edges: seq<string>)
    requires Fit(c, s) && v in s && (forall e :: e in edges ==> e in s[v].edges) && forall e :: e in s[v].edges ==> CyclicOnly(s, v, e)
    ensures Gather(c, s, v, requested, edges) == Ok([])
  {
    hide Fit;
    if edges != [] {
      assert edges[0] in edges;
      NothingFollowed(c, s, v, requested, edges[1..]);
    }
  }

  lemma EdgeIdentity(c: Config, s: Vertices, v: string, e: string)
    requires Fit(c, s) && v in s && e in s[v].edges
    ensures e in s && IdentityAt(s, e).Some? && IdentityAt(s, v).Some?
  {
    assert HasEdge(Adj(s), v, e);
  }

  /** A plugin that tells requests apart: for the given child it answers one of two requests with the
      identity it was asked for, and otherwise with nothing. */
  function Telling(child: Identity, own: Identity, requested: Identity): (Identity, Identity, Option<Credential>) -> Result<Option<Credential>> {
    (asker: Identity, asked: Identity, creds: Option<Credential>) =>
      if asker == child && (asked == own || asked == requested) then Ok(Some(Direct(asked))) else Ok(None)
  }

  lemma SameFit(c: Config, s: Vertices, q: (Identity, Identity, Option<Credential>) -> Result<Option<Credential>>)
    requires Fit(c, s)
    ensures Fit(c.(plugin := q), s)
  {
    hide Sound;
    var d := c.(plugin := q);
    assert forall v {:trigger IdentityAt(s, v)} :: v in s ==> IdentityAt(s, v).Some? && d.name(IdentityAt(s, v).value) == v;
    assert forall l: set<string>, x {:trigger x in d.listing(l)} :: x in d.listing(l) <==> x in l;
    assert forall l: set<string> {:trigger d.listing(l)} :: Distinct(d.listing(l));
  }

  lemma TellingUnsteady(c: Config, s: Vertices, v: string, e: string, requested: Identity)
    requires Fit(c, s) && v in s && c.name(requested) !in s && CredentialsAt(s, v) == None
    requires e in s[v].edges && !CyclicOnly(s, v, e) && e in s && IdentityAt(s, e).Some? && IdentityAt(s, v).Some?
    ensures !Steady(c, s, v, requested, Telling(IdentityAt(s, e).value, IdentityAt(s, v).value, requested))
  {
    hide Fit, Filled, Lookup, Telling;
    var own := IdentityAt(s, v).value;
    var d := c.(plugin := Telling(IdentityAt(s, e).value, own, requested));
    SameFit(c, s, d.plugin);
    NamedAt(c, s, v);
    TellingLookup(d, s, v, e, own, requested, own);
    TellingLookup(d, s, v, e, own, requested, requested);
    FilledRefl(d, s);
    var t := Stored(s, v, Some(Direct(own)));
    StoreOne(d, s, s, t, v, Some(Direct(own)));
    FilledFits(d, s, t);
    StoredAt(s, v, Some(Direct(own)));
    LookupIs(d, t, v, requested);
  }

  lemma NamedAt(c: Config, s: Vertices, v: string)
    requires Fit(c, s) && v in s
    ensures IdentityAt(s, v).Some? && c.name(IdentityAt(s, v).value) == v
  {
  }

  lemma TellingLookup(d: Config, s: Vertices, v: string, e: string, own: Identity, requested: Identity, asked: Identity)
    requires Fit(d, s) && v in s && CredentialsAt(s, v) == None && e in s[v].edges && !CyclicOnly(s, v, e)
    requires e in s && IdentityAt(s, e).Some? && d.plugin == Telling(IdentityAt(s, e).value, own, requested) && (asked == own || asked == requested)
    ensures Lookup(d, s, v, asked) == Ok(Some(Direct(asked)))
  {
    hide Fit, Telling, Gather;
    ListedOnce(d, s, v);
    TellingGathered(d, s, v, e, own, requested, asked, d.listing(s[v].edges.Keys));
  }

  lemma ListedOnce(c: Config, s: Vertices, v: string)
    requires Fit(c, s) && v in s
    ensures Distinct(c.listing(s[v].edges.Keys)) && forall e :: e in c.listing(s[v].edges.Keys) <==> e in s[v].edges
  {
  }

  /** With that plugin every lookup succeeds, and the child is the only one to contribute. */
  lemma {:induction false} TellingOk(d: Config, s: Vertices, x: string, e: string, own: Identity, requested: Identity, asked: Identity)
    requires Fit(d, s) && x in s && e in s && IdentityAt(s, e).Some? && d.plugin == Telling(IdentityAt(s, e).value, own, requested)
    ensures Lookup(d, s, x, asked).Ok?
    decreases |Downstream(Adj(s), x)|, 1, 0
  {
    hide Fit, Telling, Gather;
    ListedOnce(d, s, x);
    TellingGathered(d, s, x, e, own, requested, asked, d.listing(s[x].edges.Keys));
  }

  lemma {:induction false} TellingGathered(d: Config, s: Vertices, x: string, e: string, own: Identity, requested: Identity, asked: Identity, edges: seq<string>)
    requires Fit(d, s) && x in s && e in s && IdentityAt(s, e).Some? && d.plugin == Telling(IdentityAt(s, e).value, own, requested)
    requires Distinct(edges) && forall y :: y in edges ==> y in s[x].edges
    ensures Gather(d, s, x, asked, edges) ==
      Ok(if e in edges && !CyclicOnly(s, x, e) && (asked == own || asked == requested) then [Direct(asked)] else [])
    decreases |Downstream(Adj(s), x)|, 0, |edges|
  {
    hide Fit, Lookup;
    if edges != [] {
      var y := edges[0];
      assert y in edges;
      EdgeIdentity(d, s, x, y);
      NamedAt(d, s, y);
      NamedAt(d, s, e);
      assert y !in edges[1..] && (e in edges <==> e == y || e in edges[1..]);
      TellingGathered(d, s, x, e, own, requested, asked, edges[1..]);
      FollowedShrinks(d, s, x, y);
      TellingOk(d, s, y, e, own, requested, IdentityAt(s, y).value);
      if !CyclicOnly(s, x, y) {
        GatherIs(d, s, x, asked, edges);
        assert Ask(d, s, x, asked, y) == Ok(if y == e && (asked == own || asked == requested) then Some(Direct(asked)) else None);
        var rest := Gather(d, s, x, asked, edges[1..]).value;
        assert [Direct(asked)] + [] == [Direct(asked)] && [] + rest == rest && (y == e ==> rest == []);
      } else {
        assert Gather(d, s, x, asked, edges) == Gather(d, s, x, asked, edges[1..]);
      }
    } else {
      assert Gather(d, s, x, asked, edges) == Ok([]);
    }
  }

  lemma FollowedShrinks(c: Config, s: Vertices, x: string, y: string)
    requires Fit(c, s) && x in s && y in s[x].edges
    ensures |Downstream(Adj(s), y)| < |Downstream(Adj(s), x)|
  {
    assert HasEdge(Adj(s), x, y);
    DownstreamShrinks(Adj(s), x, y);
  }

  /** A graph of two vertices in which that happens: "v" asks the plugin of "e", which answers with
      the identity it was asked for. */
  function WildcardConfig(c: Config): Config {
    c.(name := (i: Identity) => if "n" in i then i["n"] else "", matches := (i: Identity, o: Identity) => true,
       plugin := (child: Identity, requested: Identity, creds: Option<Credential>) => Ok(Some(Direct(requested))))
  }

  function WildcardGraph(): Vertices {
    map["v" := Row(map[identityKey := IdentityIs(map["n" := "v"])], map["e" := map[kindKey := Kind(relevant)]], 0, 1),
        "e" := Row(map[identityKey := IdentityIs(map["n" := "e"]), credentialsKey := CredentialsAre(Some(Direct(map[])))], map[], 1, 0)]
  }

  lemma KeysDiffer()
    ensures identityKey != credentialsKey && relevant != cyclicOnly
  {
    assert |identityKey| != |credentialsKey|;
    assert |relevant| != |cyclicOnly|;
  }

  lemma WildcardGraphFits(c: Config)
    requires Lists(c)
    ensures Fit(WildcardConfig(c), WildcardGraph())
  {
    KeysDiffer();
    var s := WildcardGraph();
    var order := ["e", "v"];
    assert s["v"].edges.Keys == {"e"} && s["e"].edges.Keys == {};
    assert Adj(s) == map["v" := {"e"}, "e" := {}];
    assert "v"[0] != "e"[0];
    assert order[..1] == ["e"];
    TopologicalIsAcyclic(Adj(s), order);
  }

  lemma OneEdge(c: Config)
    requires Lists(c)
    ensures c.listing({"e"}) == ["e"]
  {
    var l := c.listing({"e"});
    assert "e" in l;
    assert 1 < |l| ==> l[0] != l[1];
    assert forall i :: 0 <= i < |l| ==> l[i] in l;
  }

  lemma PluginAnswers(c: Config, requested: Identity)
    requires Lists(c)
    ensures Fit(WildcardConfig(c), WildcardGraph())
    ensures Lookup(WildcardConfig(c), WildcardGraph(), "v", requested) == Ok(Some(Direct(requested)))
  {
    WildcardGraphFits(c);
    KeysDiffer();
    OneEdge(c);
    var d, s := WildcardConfig(c), WildcardGraph();
    hide Fit;
    assert s["v"].edges.Keys == {"e"};
    assert !CyclicOnly(s, "v", "e");
    assert Lookup(d, s, "e", IdentityAt(s, "e").value) == Ok(Some(Direct(map[])));
    assert Ask(d, s, "v", requested, "e") == Ok(Some(Direct(requested)));
    assert Gather(d, s, "v", requested, []) == Ok([]);
    assert ["e"][1..] == [] && ["e"][0] == "e";
    assert forall e :: e in ["e"] ==> e in s["v"].edges;
    GatherIs(d, s, "v", requested, ["e"]);
    assert [Direct(requested)] + [] == [Direct(requested)];
    assert Gather(d, s, "v", requested, ["e"]) == Ok([Direct(requested)]);
  }

  /** Storing the result of "v" itself changes what a wildcard request gets there. */
  lemma WildcardSeesStored(c: Config)
    requires Lists(c)
    ensures var d, s, own, wild := WildcardConfig(c), WildcardGraph(), map["n" := "v"], map["n" := "w"];
      && Fit(d, s) && Found(d, s, wild, Some("v"))
      && Lookup(d, s, "v", own).Ok?
      && var t := Stored(s, "v", Lookup(d, s, "v", own).value);
         Filled(d, s, t) && Fit(d, t) && Lookup(d, t, "v", wild) != Lookup(d, s, "v", wild)
  {
    var d, s, own, wild := WildcardConfig(c), WildcardGraph(), map["n" := "v"], map["n" := "w"];
    PluginAnswers(c, own);
    PluginAnswers(c, wild);
    KeysDiffer();
    var t := Stored(s, "v", Some(Direct(own)));
    FilledRefl(d, s);
    StoreOne(d, s, s, t, "v", Some(Direct(own)));
    FilledFits(d, s, t);
    assert own["n"] != wild["n"];
    hide Fit, Filled, Found, Gather;
  }
}
