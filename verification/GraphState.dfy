/** What a mutable graph holds at one moment, and what its operations do to that. */
module GraphState {
  import opened Graphs

  type Attributes<A> = map<string, A>

  /** What copying attribute maps one after the other into base leaves: later maps win. */
  function Merged<A>(base: Attributes<A>, attributes: seq<Attributes<A>>): Attributes<A>
    decreases |attributes|
  {
    if attributes == [] then base else Merged(base + attributes[0], attributes[1..])
  }

  /** m is what base becomes: each key has the value of the last of the given maps that has it, or else
      its old one. */
  ghost predicate LaterWins<A>(base: Attributes<A>, attributes: seq<Attributes<A>>, m: Attributes<A>) {
    && (forall k :: k in m <==> k in base || exists i :: 0 <= i < |attributes| && k in attributes[i])
    && (forall i, k :: 0 <= i < |attributes| && k in attributes[i] && (forall j :: i < j < |attributes| ==> k !in attributes[j]) ==>
      k in m && m[k] == attributes[i][k])
    && forall k :: k in base && (forall i :: 0 <= i < |attributes| ==> k !in attributes[i]) ==> k in m && m[k] == base[k]
  }

  lemma {:induction false} MergedLaterWins<A>(base: Attributes<A>, attributes: seq<Attributes<A>>)
    ensures LaterWins(base, attributes, Merged(base, attributes))
    decreases |attributes|
  {
    if attributes != [] {
      var b, rest, m := base + attributes[0], attributes[1..], Merged(base, attributes);
      MergedLaterWins(b, rest);
      forall k ensures k in m <==> k in base || exists i :: 0 <= i < |attributes| && k in attributes[i] {
        if i :| 0 <= i < |rest| && k in rest[i] { assert k in attributes[i + 1]; }
        if i :| 0 <= i < |attributes| && k in attributes[i] { assert i == 0 || k in rest[i - 1]; }
      }
      forall i, k | 0 <= i < |attributes| && k in attributes[i] && (forall j :: i < j < |attributes| ==> k !in attributes[j])
        ensures k in m && m[k] == attributes[i][k]
      {
        assert forall j :: 0 <= j < |rest| ==> rest[j] == attributes[j + 1];
        if i > 0 { assert k in rest[i - 1]; } else { assert k in b; }
      }
      forall k | k in base && (forall i :: 0 <= i < |attributes| ==> k !in attributes[i]) ensures k in m && m[k] == base[k] {
        assert k !in attributes[0] && k in b;
        assert forall j :: 0 <= j < |rest| ==> rest[j] == attributes[j + 1];
      }
    }
  }

  /** The loop over the given maps in AddVertex and AddEdge. */
  method CopyAll<A>(base: Attributes<A>, attributes: seq<Attributes<A>>) returns (m: Attributes<A>)
    ensures m == Merged(base, attributes) && LaterWins(base, attributes, m)
  {
    m := base;
    for i := 0 to |attributes|
      invariant Merged(m, attributes[i..]) == Merged(base, attributes)
    {
      assert attributes[i..][1..] == attributes[i + 1..];
      m := m + attributes[i];
    }
    MergedLaterWins(base, attributes);
  }

  /** A vertex: its attributes, its outgoing edges with theirs, and the two redundant counters. */
  datatype Row<T, A> = Row(attributes: Attributes<A>, edges: map<T, Attributes<A>>, ind: int, outd: int)

  type State<T, A> = map<T, Row<T, A>>

  function Adj<T, A>(s: State<T, A>): map<T, set<T>> {
    map v | v in s :: s[v].edges.Keys
  }

  function InDegrees<T, A>(s: State<T, A>): map<T, int> {
    map v | v in s :: s[v].ind
  }

  function OutDegrees<T, A>(s: State<T, A>): map<T, int> {
    map v | v in s :: s[v].outd
  }

  /** A closed, acyclic graph whose counters hold the true degrees. */
  ghost predicate Good<T(!new), A>(s: State<T, A>) {
    Sound(Adj(s)) && ExactDegrees(Adj(s), InDegrees(s), OutDegrees(s))
  }

  function AddedVertex<T, A>(s: State<T, A>, id: T, attributes: Attributes<A>): State<T, A> {
    s[id := Row(attributes, map[], 0, 0)]
  }

  /** The edge (a, b) without attributes, counted at both ends. */
  function Linked<T, A>(s: State<T, A>, a: T, b: T): State<T, A>
    requires a in s && b in s
  {
    var t := s[a := s[a].(edges := s[a].edges[b := map[]], outd := s[a].outd + 1)];
    t[b := t[b].(ind := t[b].ind + 1)]
  }

  /** The edge (a, b) taken out, uncounted at both ends. */
  function Unlinked<T, A>(s: State<T, A>, a: T, b: T): State<T, A>
    requires a in s && b in s
  {
    var t := s[a := s[a].(edges := s[a].edges - {b}, outd := s[a].outd - 1)];
    t[b := t[b].(ind := t[b].ind - 1)]
  }

  function Annotated<T, A>(s: State<T, A>, a: T, b: T, attributes: seq<Attributes<A>>): State<T, A>
    requires a in s && b in s[a].edges
  {
    s[a := s[a].(edges := s[a].edges[b := Merged(s[a].edges[b], attributes)])]
  }

  /** The edge with the attributes merged into those it had. */
  function AddedEdge<T, A>(s: State<T, A>, a: T, b: T, attributes: seq<Attributes<A>>): State<T, A>
    requires a in s && b in s
  {
    if b in s[a].edges then Annotated(s, a, b, attributes) else Annotated(Linked(s, a, b), a, b, attributes)
  }

  lemma EmptyGood<T(!new), A>()
    ensures Good<T, A>(map[])
  {
    var s: State<T, A> := map[];
    forall c: seq<T> | IsCycle(Adj(s), c) ensures false {
      CycleInGraph(Adj(s), c);
    }
  }

  lemma AddedVertexMaps<T, A>(s: State<T, A>, id: T, attributes: Attributes<A>)
    requires id !in s
    ensures Adj(AddedVertex(s, id, attributes)) == WithVertex(Adj(s), id)
    ensures InDegrees(AddedVertex(s, id, attributes)) == InDegrees(s)[id := 0]
    ensures OutDegrees(AddedVertex(s, id, attributes)) == OutDegrees(s)[id := 0]
  {
    var none: map<T, Attributes<A>> := map[];
    assert none.Keys == {};
    var t := AddedVertex(s, id, attributes);
    hide AddedVertex;
    assert t.Keys == s.Keys + {id} && t[id] == Row(attributes, none, 0, 0) && forall v :: v in s ==> t[v] == s[v];
    hide *;
    RowAdded(s, t, id);
  }

  lemma RowAdded<T, A>(s: State<T, A>, t: State<T, A>, id: T)
    requires id !in s && t.Keys == s.Keys + {id} && forall v :: v in s ==> t[v] == s[v]
    ensures Adj(t) == Adj(s)[id := t[id].edges.Keys]
    ensures InDegrees(t) == InDegrees(s)[id := t[id].ind] && OutDegrees(t) == OutDegrees(s)[id := t[id].outd]
  {
  }

  lemma AddedVertexGood<T(!new), A>(s: State<T, A>, id: T, attributes: Attributes<A>)
    requires Good(s) && id !in s
    ensures Good(AddedVertex(s, id, attributes))
  {
    AddedVertexMaps(s, id, attributes);
    VertexAdded(Adj(s), InDegrees(s), OutDegrees(s), id);
  }

  lemma UnlinkedMaps<T, A>(s: State<T, A>, a: T, b: T)
    requires a in s && b in s && a != b
    ensures Adj(Unlinked(s, a, b)) == WithoutEdge(Adj(s), a, b)
    ensures InDegrees(Unlinked(s, a, b)) == InDegrees(s)[b := InDegrees(s)[b] - 1]
    ensures OutDegrees(Unlinked(s, a, b)) == OutDegrees(s)[a := OutDegrees(s)[a] - 1]
  {
  }

  lemma UnlinkedGood<T(!new), A>(s: State<T, A>, a: T, b: T)
    requires Good(s) && a in s && b in s[a].edges
    ensures a != b && b in s && Good(Unlinked(s, a, b))
    ensures Adj(Unlinked(s, a, b)) == WithoutEdge(Adj(s), a, b)
  {
    NoSelfEdge(Adj(s), a);
    assert b in Adj(s)[a];
    UnlinkedMaps(s, a, b);
    EdgeRemoved(Adj(s), InDegrees(s), OutDegrees(s), a, b);
  }

  lemma LinkedMaps<T, A>(s: State<T, A>, a: T, b: T)
    requires a in s && b in s && a != b
    ensures Adj(Linked(s, a, b)) == WithEdge(Adj(s), a, b)
    ensures InDegrees(Linked(s, a, b)) == InDegrees(s)[b := InDegrees(s)[b] + 1]
    ensures OutDegrees(Linked(s, a, b)) == OutDegrees(s)[a := OutDegrees(s)[a] + 1]
  {
    assert s[a].edges[b := map[]].Keys == s[a].edges.Keys + {b};
  }

  lemma RolledBack<T, A>(s: State<T, A>, a: T, b: T)
    requires a in s && b in s && a != b && b !in s[a].edges
    ensures Unlinked(Linked(s, a, b), a, b) == s
  {
    assert s[a].edges[b := map[]] - {b} == s[a].edges;
    var u := Unlinked(Linked(s, a, b), a, b);
    assert u[a] == s[a] && u[b] == s[b];
  }

  lemma AnnotatedMaps<T, A>(s: State<T, A>, a: T, b: T, attributes: seq<Attributes<A>>)
    requires a in s && b in s[a].edges
    ensures var t := Annotated(s, a, b, attributes);
      Adj(t) == Adj(s) && InDegrees(t) == InDegrees(s) && OutDegrees(t) == OutDegrees(s)
  {
    assert Annotated(s, a, b, attributes)[a].edges.Keys == s[a].edges.Keys;
  }

  lemma AddedEdgeAdj<T(!new), A>(s: State<T, A>, a: T, b: T, attributes: seq<Attributes<A>>)
    requires a in s && b in s && a != b
    ensures Adj(AddedEdge(s, a, b, attributes)) == WithEdge(Adj(s), a, b)
  {
    if b in s[a].edges {
      assert Adj(s)[a] + {b} == Adj(s)[a];
      AnnotatedMaps(s, a, b, attributes);
    } else {
      LinkedMaps(s, a, b);
      AnnotatedMaps(Linked(s, a, b), a, b, attributes);
    }
  }

  /** AddEdge's verdict: the edge exists, or its end does not reach its start. */
  ghost predicate Admits<T(!new), A>(s: State<T, A>, a: T, b: T) {
    a in s && b in s && a != b && (b in s[a].edges || !Reaches(Adj(s), b, a))
  }

  /** The verdict is exact: between different vertices, the graph with the edge is good if and
      only if the edge is admitted. */
  lemma AddedEdgeGood<T(!new), A>(s: State<T, A>, a: T, b: T, attributes: seq<Attributes<A>>)
    requires Good(s) && a in s && b in s && a != b
    ensures Good(AddedEdge(s, a, b, attributes)) <==> Admits(s, a, b)
  {
    if b in s[a].edges {
      hide ExactDegrees, Sound;
      AnnotatedMaps(s, a, b, attributes);
    } else {
      LinkedMaps(s, a, b);
      AnnotatedMaps(Linked(s, a, b), a, b, attributes);
      EdgeAdded(Adj(s), InDegrees(s), OutDegrees(s), a, b);
      EdgeKeepsAcyclic(Adj(s), a, b);
      hide ExactDegrees, Closed, Acyclic, Reaches, Linked, Adj, InDegrees, OutDegrees;
    }
  }

  lemma RemovedVertexGood<T(!new), A>(s: State<T, A>, v: T)
    requires Good(s) && v in s && s[v].edges == map[]
    ensures Good(s - {v}) <==> s[v].ind == 0
    ensures Closed(Adj(s - {v})) <==> s[v].ind == 0
    ensures Adj(s - {v}) == Adj(s) - {v}
  {
    assert Adj(s - {v}) == Adj(s) - {v};
    assert InDegrees(s - {v}) == InDegrees(s) - {v};
    assert OutDegrees(s - {v}) == OutDegrees(s) - {v};
    VertexRemoved(Adj(s), InDegrees(s), OutDegrees(s), v);
  }

  // ---- reversal ----

  /** The edges out of y once all edges are turned around: one per edge into y. */
  function EdgesInto<T, A>(s: State<T, A>, y: T): map<T, Attributes<A>> {
    map x | x in s && y in s[x].edges :: s[x].edges[y]
  }

  /** The same vertices, every edge turned around, the degrees swapped. */
  function Reversal<T, A>(s: State<T, A>): State<T, A> {
    map y | y in s :: Row(s[y].attributes, EdgesInto(s, y), s[y].outd, s[y].ind)
  }

  /** The listed vertices without any edge. */
  function EdgesDropped<T, A>(s: State<T, A>, vs: set<T>): State<T, A>
    requires vs <= s.Keys
  {
    map v | v in vs :: Row(s[v].attributes, map[], 0, 0)
  }

  lemma OneMoreCopied<T(!new), A>(s: State<T, A>, vs: set<T>, v: T)
    requires vs <= s.Keys && v in s && v !in vs
    ensures Apply(EdgesDropped(s, vs), AddVertex(v, [s[v].attributes])) == EdgesDropped(s, vs + {v})
  {
    var m := s[v].attributes;
    assert Merged(map[], [m]) == Merged(map[] + m, []) == m;
  }

  lemma NothingCopied<T, A>(s: State<T, A>)
    ensures EdgesDropped(s, {}) == map[]
  {
  }

  lemma NothingTurned<T(!new), A>(s: State<T, A>, r: State<T, A>)
    requires r == EdgesDropped(s, s.Keys) && Good(r)
    ensures Turning(s, r, {})
  {
    hide Good;
  }

  /** r has the vertices of s and, turned around, those of its edges that are listed. */
  ghost predicate Turning<T(!new), A>(s: State<T, A>, r: State<T, A>, turned: set<(T, T)>) {
    && Good(r) && r.Keys == s.Keys && (forall v {:trigger r[v]} :: v in r ==> r[v].attributes == s[v].attributes)
    && (forall x, y {:trigger (x, y) in turned} :: (x, y) in turned ==> x in s && y in s[x].edges)
    && (forall x, y {:trigger x in r[y].edges} :: y in r ==> (x in r[y].edges <==> (x, y) in turned))
    && (forall x, y {:trigger r[y].edges[x]} :: y in r && x in r[y].edges && (x, y) in turned ==> r[y].edges[x] == s[x].edges[y])
  }

  /** Turning one more edge around is always admitted: in an acyclic graph no order of turning
      edges ever closes a cycle. */
  lemma TurnOne<T(!new), A>(s: State<T, A>, r: State<T, A>, turned: set<(T, T)>, x: T, y: T)
    requires Good(s) && Turning(s, r, turned) && x in s && y in s[x].edges
    ensures y in s && y in r && x in r && Admits(r, y, x)
    ensures Turning(s, AddedEdge(r, y, x, [s[x].edges[y]]), turned + {(x, y)})
  {
    TurnAdmitted(s, r, turned, x, y);
    assert Good(r);
    hide *;
    AddedEdgeGood(r, y, x, [s[x].edges[y]]);
    TurnedEdge(s, r, turned, x, y);
    TurningStep(s, r, AddedEdge(r, y, x, [s[x].edges[y]]), turned, x, y);
  }

  lemma TurnAdmitted<T(!new), A>(s: State<T, A>, r: State<T, A>, turned: set<(T, T)>, x: T, y: T)
    requires Good(s) && Turning(s, r, turned) && x in s && y in s[x].edges
    ensures y in s && y in r && x in r && x != y && Admits(r, y, x)
  {
    assert HasEdge(Adj(s), x, y) && y in Adj(s);
    hide Reaches, IsCycle, ExactDegrees, Acyclic;
    forall u, v | HasEdge(Adj(r), u, v) ensures HasEdge(Adj(s), v, u) {
      assert v in r[u].edges;
    }
    ConverseEdgeFits(Adj(s), Adj(r), x, y);
  }

  lemma LinkedRows<T, A>(s: State<T, A>, a: T, b: T)
    requires a in s && b in s && a != b
    ensures Linked(s, a, b).Keys == s.Keys && Linked(s, a, b)[a].edges == s[a].edges[b := map[]]
    ensures forall v :: v in s && v != a ==> Linked(s, a, b)[v].edges == s[v].edges
    ensures forall v :: v in s ==> Linked(s, a, b)[v].attributes == s[v].attributes
  {
  }

  lemma AnnotatedRows<T, A>(s: State<T, A>, a: T, b: T, m: Attributes<A>)
    requires a in s && b in s[a].edges && (s[a].edges[b] == map[] || s[a].edges[b] == m)
    ensures var t := Annotated(s, a, b, [m]);
      && t.Keys == s.Keys && t[a].edges == s[a].edges[b := m]
      && (forall v :: v in s && v != a ==> t[v].edges == s[v].edges)
      && (forall v :: v in s ==> t[v].attributes == s[v].attributes)
  {
    assert Merged(map[], [m]) == Merged(map[] + m, []) == m;
    assert Merged(m, [m]) == Merged(m + m, []) == m;
  }

  lemma TurnedEdge<T(!new), A>(s: State<T, A>, r: State<T, A>, turned: set<(T, T)>, x: T, y: T)
    requires Turning(s, r, turned) && x in s && y in s[x].edges && y in r && x in r && x != y
    ensures var t := AddedEdge(r, y, x, [s[x].edges[y]]);
      && t.Keys == r.Keys && t[y].edges == r[y].edges[x := s[x].edges[y]]
      && (forall v :: v in r && v != y ==> t[v].edges == r[v].edges)
      && (forall v :: v in r ==> t[v].attributes == r[v].attributes)
  {
    var m := s[x].edges[y];
    assert x in r[y].edges ==> r[y].edges[x] == m;
    hide Turning, Merged, Linked, Annotated;
    if x in r[y].edges {
      AnnotatedRows(r, y, x, m);
    } else {
      LinkedRows(r, y, x);
      AnnotatedRows(Linked(r, y, x), y, x, m);
      assert r[y].edges[x := map[]][x := m] == r[y].edges[x := m];
    }
  }

  lemma TurningStep<T(!new), A>(s: State<T, A>, r: State<T, A>, t: State<T, A>, turned: set<(T, T)>, x: T, y: T)
    requires Turning(s, r, turned) && x in s && y in s[x].edges && y in s
    requires Good(t) && t.Keys == r.Keys && t[y].edges == r[y].edges[x := s[x].edges[y]]
    requires forall v :: v in r && v != y ==> t[v].edges == r[v].edges
    requires forall v :: v in r ==> t[v].attributes == r[v].attributes
    ensures Turning(s, t, turned + {(x, y)})
  {
    hide Good;
  }

  lemma RowTurned<T(!new), A>(s: State<T, A>, r: State<T, A>, turned: set<(T, T)>, y: T)
    requires Turning(s, r, turned) && y in r
    requires forall x, y :: x in s && y in s[x].edges ==> (x, y) in turned
    ensures r[y].edges == EdgesInto(s, y)
  {
    hide Good;
    forall x ensures x in r[y].edges <==> x in EdgesInto(s, y) {
      assert x in r[y].edges <==> (x, y) in turned;
    }
  }

  /** Once all edges are turned, nothing else is left to say about the reversed graph. */
  lemma AllTurned<T(!new), A>(s: State<T, A>, r: State<T, A>, turned: set<(T, T)>)
    requires Good(s) && Turning(s, r, turned)
    requires forall x, y :: x in s && y in s[x].edges ==> (x, y) in turned
    ensures r == Reversal(s)
  {
    forall y | y in r ensures r[y].edges == EdgesInto(s, y) && r[y].attributes == s[y].attributes {
      RowTurned(s, r, turned, y);
    }
    assert Good(r) && r.Keys == s.Keys;
    hide Turning, Good;
    AdjReversed(s, r);
    ReversalDegrees(s, r);
    forall y | y in r ensures r[y] == Reversal(s)[y] {
      assert InDegrees(r)[y] == OutDegrees(s)[y] && OutDegrees(r)[y] == InDegrees(s)[y];
    }
  }

  lemma AdjReversed<T(!new), A>(s: State<T, A>, r: State<T, A>)
    requires r.Keys == s.Keys && forall y :: y in r ==> r[y].edges == EdgesInto(s, y)
    ensures Adj(r) == Converse(Adj(s))
  {
    forall y | y in r ensures r[y].edges.Keys == Converse(Adj(s))[y] {
      assert EdgesInto(s, y).Keys == Converse(Adj(s))[y];
    }
  }

  lemma ReversalDegrees<T(!new), A>(s: State<T, A>, r: State<T, A>)
    requires Good(s) && Good(r) && Adj(r) == Converse(Adj(s))
    ensures InDegrees(r) == OutDegrees(s) && OutDegrees(r) == InDegrees(s)
  {
    hide ExactDegrees, Acyclic;
    ConverseDegrees(Adj(s), InDegrees(s), OutDegrees(s));
    DegreesUnique(Converse(Adj(s)), OutDegrees(s), InDegrees(s), InDegrees(r), OutDegrees(r));
  }

  // ---- runs ----

  datatype Op<T, A> =
    | AddVertex(id: T, vertexAttributes: seq<Attributes<A>>)
    | AddEdge(from: T, to: T, edgeAttributes: seq<Attributes<A>>)
    | DeleteEdge(from: T, to: T)

  /** t is s with the new vertex, which has no edges and the given attributes. */
  ghost predicate VertexIsAdded<T(!new), A>(s: State<T, A>, t: State<T, A>, id: T, attributes: seq<Attributes<A>>) {
    && id !in s && t.Keys == s.Keys + {id} && (forall v :: v in s ==> t[v] == s[v])
    && t[id].edges == map[] && t[id].ind == 0 && t[id].outd == 0 && LaterWins(map[], attributes, t[id].attributes)
  }

  /** t is s with the edge, which has the attributes it had, if any, and the given ones over them. */
  ghost predicate EdgeIsAdded<T(!new), A>(s: State<T, A>, t: State<T, A>, a: T, b: T, attributes: seq<Attributes<A>>) {
    && a in s && t.Keys == s.Keys && (forall v :: v in s ==> t[v].attributes == s[v].attributes)
    && (forall v :: v in s && v != a ==> t[v].edges == s[v].edges) && t[a].edges - {b} == s[a].edges - {b}
    && b in t[a].edges && LaterWins(if b in s[a].edges then s[a].edges[b] else map[], attributes, t[a].edges[b])
  }

  /** t is s without the edge. */
  ghost predicate EdgeIsDeleted<T(!new), A>(s: State<T, A>, t: State<T, A>, a: T, b: T) {
    && a in s && b in s[a].edges && t.Keys == s.Keys && (forall v :: v in s ==> t[v].attributes == s[v].attributes)
    && (forall v :: v in s && v != a ==> t[v].edges == s[v].edges) && t[a].edges == s[a].edges - {b}
  }

  /** t has the vertices of s with their attributes, and its edges with theirs, turned around. */
  ghost predicate IsTurned<T(!new), A>(s: State<T, A>, t: State<T, A>) {
    && t.Keys == s.Keys && (forall v :: v in s ==> t[v].attributes == s[v].attributes && t[v].ind == s[v].outd && t[v].outd == s[v].ind)
    && (forall x, y :: x in s && y in s ==> (x in t[y].edges <==> y in s[x].edges))
    && (forall x, y :: y in t && x in t[y].edges ==> x in s && y in s[x].edges && t[y].edges[x] == s[x].edges[y])
  }

  /** What the operations do to a graph. */
  lemma AppliedIs<T(!new), A>(s: State<T, A>, op: Op<T, A>)
    requires Good(s)
    ensures match op
      case AddVertex(id, attributes) => if id in s then Apply(s, op) == s else VertexIsAdded(s, Apply(s, op), id, attributes)
      case AddEdge(a, b, attributes) => if Admits(s, a, b) then EdgeIsAdded(s, Apply(s, op), a, b, attributes) else Apply(s, op) == s
      case DeleteEdge(a, b) => if a in s && b in s[a].edges then EdgeIsDeleted(s, Apply(s, op), a, b) else Apply(s, op) == s
  {
    hide Good, LaterWins, Merged, Reaches, AddedEdge, Unlinked;
    match op
    case AddVertex(_, attributes) => MergedLaterWins<A>(map[], attributes);
    case AddEdge(a, b, attributes) => if Admits(s, a, b) { AddedEdgeIs(s, a, b, attributes); }
    case DeleteEdge(a, b) => if a in s && b in s[a].edges { UnlinkedIs(s, a, b); }
  }

  lemma UnlinkedIs<T(!new), A>(s: State<T, A>, a: T, b: T)
    requires Good(s) && a in s && b in s[a].edges
    ensures b in s && EdgeIsDeleted(s, Unlinked(s, a, b), a, b)
  {
    UnlinkedGood(s, a, b);
    hide Good;
  }

  lemma AddedEdgeIs<T(!new), A>(s: State<T, A>, a: T, b: T, attributes: seq<Attributes<A>>)
    requires a in s && b in s && a != b
    ensures EdgeIsAdded(s, AddedEdge(s, a, b, attributes), a, b, attributes)
  {
    hide LaterWins, Merged;
    MergedLaterWins(if b in s[a].edges then s[a].edges[b] else map[], attributes);
    if b !in s[a].edges { LinkedRows(s, a, b); }
  }

  lemma ReversalTurned<T(!new), A>(s: State<T, A>)
    requires Closed(Adj(s))
    ensures IsTurned(s, Reversal(s))
  {
  }

  /** t is s without the vertex and its outgoing edges. */
  ghost predicate VertexIsDeleted<T(!new), A>(s: State<T, A>, t: State<T, A>, id: T) {
    && id in s && t.Keys == s.Keys - {id}
    && forall v :: v in t ==> t[v] == s[v].(ind := s[v].ind - if v in s[id].edges then 1 else 0)
  }

  /** t is s without the outgoing edges of the vertex but those to todo. */
  ghost predicate OutgoingDropped<T(!new), A>(s: State<T, A>, t: State<T, A>, id: T, todo: set<T>) {
    && id in s && t.Keys == s.Keys && todo <= s[id].edges.Keys && t[id].edges.Keys == todo
    && forall v :: v in t && v != id ==> t[v] == s[v].(ind := s[v].ind - if v in s[id].edges && v !in todo then 1 else 0)
  }

  lemma DropsOne<T(!new), A>(s: State<T, A>, t: State<T, A>, id: T, todo: set<T>, edge: T)
    requires OutgoingDropped(s, t, id, todo) && Good(t) && edge in todo
    ensures OutgoingDropped(s, Apply(t, DeleteEdge(id, edge)), id, todo - {edge})
  {
    UnlinkedGood(t, id, edge);
    hide Good;
  }

  lemma NothingDropped<T(!new), A>(s: State<T, A>, id: T)
    requires id in s
    ensures OutgoingDropped(s, s, id, s[id].edges.Keys)
  {
    forall v | v in s ensures s[v] == s[v].(ind := s[v].ind - 0) {
    }
  }

  lemma AllDropped<T(!new), A>(s: State<T, A>, t: State<T, A>, id: T)
    requires OutgoingDropped(s, t, id, {})
    ensures VertexIsDeleted(s, t - {id}, id)
  {
  }

  /** What one call leaves: the changed graph, or on an error the graph as it was. */
  ghost function Apply<T(!new), A>(s: State<T, A>, op: Op<T, A>): State<T, A> {
    match op
    case AddVertex(id, attributes) => if id in s then s else AddedVertex(s, id, Merged(map[], attributes))
    case AddEdge(from, to, attributes) => if Admits(s, from, to) then AddedEdge(s, from, to, attributes) else s
    case DeleteEdge(from, to) => if from in s && to in s && to in s[from].edges then Unlinked(s, from, to) else s
  }

  lemma AdmittedIsAdded<T(!new), A>(s: State<T, A>, from: T, to: T, attributes: seq<Attributes<A>>)
    requires Admits(s, from, to)
    ensures from in s && to in s && Apply(s, AddEdge(from, to, attributes)) == AddedEdge(s, from, to, attributes)
  {
  }

  lemma ExistingIsRemoved<T(!new), A>(s: State<T, A>, from: T, to: T)
    requires Good(s) && from in s && to in s[from].edges
    ensures to in s && Good(Apply(s, DeleteEdge(from, to)))
    ensures Adj(Apply(s, DeleteEdge(from, to))) == WithoutEdge(Adj(s), from, to)
    ensures var t := Apply(s, DeleteEdge(from, to));
      t.Keys == s.Keys && t[from].edges == s[from].edges - {to} && t[from].ind == s[from].ind
  {
    UnlinkedGood(s, from, to);
    hide Good;
  }

  lemma ApplyKeepsGood<T(!new), A>(s: State<T, A>, op: Op<T, A>)
    requires Good(s)
    ensures Good(Apply(s, op))
  {
    hide Good;
    match op
    case AddVertex(id, attributes) => if id !in s { AddedVertexGood(s, id, Merged(map[], attributes)); }
    case AddEdge(from, to, attributes) => if Admits(s, from, to) { AddedEdgeGood(s, from, to, attributes); }
    case DeleteEdge(from, to) => if from in s && to in s && to in s[from].edges { UnlinkedGood(s, from, to); }
  }

  /** trace runs the operations from the empty graph. */
  ghost predicate IsRun<T(!new), A>(ops: seq<Op<T, A>>, trace: seq<State<T, A>>) {
    && |trace| == |ops| + 1 && trace[0] == map[]
    && forall i {:trigger ops[i]} :: 0 <= i < |ops| ==> trace[i + 1] == Apply(trace[i], ops[i])
  }

  /** Whatever is added, rejected and deleted in whatever order, every graph on the way is closed
      and acyclic with exact degrees. */
  lemma {:induction false} RunStaysGood<T(!new), A>(ops: seq<Op<T, A>>, trace: seq<State<T, A>>, i: nat)
    requires IsRun(ops, trace) && i < |trace|
    ensures Good(trace[i])
  {
    if i == 0 {
      EmptyGood<T, A>();
    } else {
      RunStaysGood(ops, trace, i - 1);
      ApplyKeepsGood(trace[i - 1], ops[i - 1]);
    }
  }
}
