/** The mutable directed acyclic graph (bindings/go/dag/dag.go): vertices with edge maps and
    redundant degree counters, changed in place. */
module Dag {
  import opened Graphs
  import opened Orders
  import opened TopoOrder
  import opened Searches
  import opened GraphState

  datatype GraphError<T> =
    | NodeExists(id: T)
    | NodeMissing(id: T)
    | EdgeMissing(from: T, to: T)
    | SelfReference
    | WouldCycle(from: T, to: T, cycle: seq<T>)

  class Vertex<T(==, !new), A> {
    const ID: T
    var Attributes: Attributes<A>
    var Edges: map<T, Attributes<A>>
    var InDegree: int
    var OutDegree: int

    constructor (id: T, attributes: Attributes<A>)
      ensures ID == id && Attributes == attributes
      ensures Edges == map[] && InDegree == 0 && OutDegree == 0
    {
      ID := id;
      Attributes := attributes;
      Edges := map[];
      InDegree := 0;
      OutDegree := 0;
    }
  }

  // ---- reachability search ----

  /** The result of a search from `from` to `to`: exactly a path with at least one edge. */
  ghost predicate PathFound<T(!new)>(g: map<T, set<T>>, from: T, to: T, path: seq<T>, found: bool) {
    if found then |path| >= 2 && PathFromTo(g, path, from, to)
    else path == [] && forall p: seq<T> :: PathFromTo(g, p, from, to) ==> |p| < 2
  }

  /** Everything visited is on the stack, or its edges lead to visited vertices other than `to`. */
  ghost predicate Expanded<T(!new)>(g: map<T, set<T>>, to: T, visited: set<T>, stack: seq<T>) {
    && visited <= g.Keys && (forall x :: x in stack ==> x in visited)
    && forall x, y :: x in visited && x !in stack && HasEdge(g, x, y) ==> y in visited && y != to
  }

  /** The same while the edges of node are being looked at. */
  ghost predicate ExpandedBut<T(!new)>(g: map<T, set<T>>, to: T, visited: set<T>, stack: seq<T>, node: T) {
    && visited <= g.Keys && (forall x :: x in stack ==> x in visited)
    && forall x, y :: x in visited && x !in stack && x != node && HasEdge(g, x, y) ==> y in visited && y != to
  }

  /** A search that has expanded all it visited without meeting `to` proves there is no path. */
  lemma NothingLeft<T(!new)>(g: map<T, set<T>>, from: T, to: T, visited: set<T>)
    requires from in visited && Expanded(g, to, visited, [])
    ensures PathFound(g, from, to, [], false)
  {
    forall p: seq<T> | PathFromTo(g, p, from, to) ensures |p| < 2 {
      PathStays(g, visited, p);
      if |p| >= 2 { LastEdge(g, p); }
    }
  }

  /** Each visited vertex other than `from` was first met on an edge from its parent, met earlier:
      paths holds how. */
  ghost predicate ParentTree<T>(g: map<T, set<T>>, from: T, visited: set<T>, parent: map<T, T>, paths: map<T, seq<T>>) {
    && from in visited && paths.Keys == visited && parent.Keys == visited - {from} && paths[from] == [from]
    && forall x :: x in parent ==> parent[x] in visited && HasEdge(g, parent[x], x) && paths[x] == paths[parent[x]] + [x]
  }

  lemma PushKeeps<T(!new)>(g: map<T, set<T>>, to: T, visited: set<T>, stack: seq<T>, node: T, x: T)
    requires ExpandedBut(g, to, visited, stack, node) && x in g
    ensures ExpandedBut(g, to, visited + {x}, stack + [x], node)
  {
    assert forall y :: y in stack + [x] <==> y in stack || y == x;
  }

  lemma GrowTree<T(!new)>(g: map<T, set<T>>, from: T, visited: set<T>, parent: map<T, T>, paths: map<T, seq<T>>, node: T, x: T)
    requires ParentTree(g, from, visited, parent, paths) && node in visited && x !in visited && HasEdge(g, node, x)
    ensures ParentTree(g, from, visited + {x}, parent[x := node], paths[x := paths[node] + [x]])
  {
  }

  /** Before anything but `from` has been visited. */
  lemma SearchBegins<T(!new)>(g: map<T, set<T>>, from: T, to: T)
    requires from in g
    ensures Expanded(g, to, {from}, [from]) && ParentTree(g, from, {from}, map[], map[from := [from]])
  {
  }

  /** The last vertex of the stack is taken off it. */
  lemma SearchPops<T(!new)>(g: map<T, set<T>>, from: T, to: T, visited: set<T>, stack: seq<T>, parent: map<T, T>, paths: map<T, seq<T>>)
    requires Expanded(g, to, visited, stack) && ParentTree(g, from, visited, parent, paths)
    ensures paths.Keys == visited <= g.Keys && from in visited && forall x :: x in stack ==> x in visited
    ensures stack != [] ==> stack[|stack| - 1] in visited && ExpandedBut(g, to, visited, stack[..|stack| - 1], stack[|stack| - 1])
  {
    if stack != [] { assert stack == stack[..|stack| - 1] + [stack[|stack| - 1]] && stack[|stack| - 1] in stack; }
  }

  lemma SearchPaths<T(!new)>(g: map<T, set<T>>, from: T, to: T, visited: set<T>, stack: seq<T>, parent: map<T, T>, paths: map<T, seq<T>>, node: T)
    requires ExpandedBut(g, to, visited, stack, node) && ParentTree(g, from, visited, parent, paths)
    ensures paths.Keys == visited <= g.Keys && forall x :: x in stack ==> x in paths
  {
  }

  lemma NodeExpanded<T(!new)>(g: map<T, set<T>>, to: T, visited: set<T>, stack: seq<T>, node: T, neighbors: seq<T>)
    requires ExpandedBut(g, to, visited, stack, node) && (node in g ==> forall y :: y in neighbors <==> y in g[node])
    requires forall k :: 0 <= k < |neighbors| ==> neighbors[k] in visited && neighbors[k] != to
    ensures Expanded(g, to, visited, stack)
  {
  }

  /** The inner loop of findSortedPath over the sorted neighbors of node. */
  method LookAtEdges<T(==, !new)>(from: T, to: T, node: T, neighbors: seq<T>, ghost g: map<T, set<T>>,
      visited0: set<T>, parent0: map<T, T>, ghost paths0: map<T, seq<T>>, stack0: seq<T>)
    returns (path: seq<T>, found: bool, visited: set<T>, parent: map<T, T>, ghost paths: map<T, seq<T>>, stack: seq<T>)
    requires Closed(g) && node in visited0 && ExpandedBut(g, to, visited0, stack0, node)
    requires ParentTree(g, from, visited0, parent0, paths0)
    requires forall y :: y in neighbors <==> y in g[node]
    ensures found <==> to in neighbors
    ensures found ==> PathFound(g, from, to, path, true) && path == paths0[node] + [to]
    ensures !found ==> Expanded(g, to, visited, stack) && ParentTree(g, from, visited, parent, paths)
    ensures !found ==> Seen(paths, stack) == Looked(node, neighbors, Seen(paths0, stack0))
    ensures visited0 <= visited && stack0 <= stack && (visited == visited0 ==> stack == stack0)
  {
    hide PathFound, Looked, ParentTree, ExpandedBut, Expanded;
    path, found, visited, parent, paths, stack := [], false, visited0, parent0, paths0, stack0;
    SearchPaths(g, from, to, visited, stack, parent, paths, node);
    for i := 0 to |neighbors|
      invariant visited0 <= visited && stack0 <= stack && (visited == visited0 ==> stack == stack0)
      invariant paths.Keys == visited && (forall x :: x in stack ==> x in paths) && node in paths0 && paths[node] == paths0[node]
      invariant ParentTree(g, from, visited, parent, paths)
      invariant ExpandedBut(g, to, visited, stack, node)
      invariant forall k :: 0 <= k < i ==> neighbors[k] in visited && neighbors[k] != to
      invariant Looked(node, neighbors[i..], Seen(paths, stack)) == Looked(node, neighbors, Seen(paths0, stack0))
    {
      var neighbor := neighbors[i];
      assert HasEdge(g, node, neighbor);
      LooksOn(node, neighbors, i, Seen(paths, stack));
      if neighbor == to {
        path := WalkParents(from, to, node, g, visited, parent, paths);
        found := true;
        return;
      }
      if neighbor !in visited {
        PushKeeps(g, to, visited, stack, node, neighbor);
        GrowTree(g, from, visited, parent, paths, node, neighbor);
        paths := paths[neighbor := paths[node] + [neighbor]];
        visited := visited + {neighbor};
        parent := parent[neighbor := node];
        stack := stack + [neighbor];
      }
    }
    NodeExpanded(g, to, visited, stack, node, neighbors);
    LooksOn(node, neighbors, |neighbors|, Seen(paths, stack));
  }

  /** Follows the parents from node back to from; each step is one level up, so the walk ends.
      The path is built front to back instead of being reversed at the end. */
  method WalkParents<T(==, !new)>(from: T, to: T, node: T, ghost g: map<T, set<T>>, ghost visited: set<T>,
      parent: map<T, T>, ghost paths: map<T, seq<T>>)
    returns (path: seq<T>)
    requires ParentTree(g, from, visited, parent, paths) && node in visited && HasEdge(g, node, to)
    ensures PathFound(g, from, to, path, true) && path == paths[node] + [to]
  {
    var cur := node;
    path := [node, to];
    EdgePath(g, node, to);
    assert paths[node] + path[1..] == paths[node] + [to];
    while cur != from
      invariant cur in visited && |path| >= 2 && PathFromTo(g, path, cur, to)
      invariant paths[cur] + path[1..] == paths[node] + [to]
      decreases |paths[cur]|
    {
      EdgePath(g, parent[cur], cur);
      JoinPaths(g, [parent[cur], cur], path);
      assert [parent[cur]] + path == [parent[cur], cur] + path[1..];
      assert paths[parent[cur]] + path == paths[cur] + path[1..];
      cur := parent[cur];
      path := [cur] + path;
    }
  }

  // ---- cycle search ----

  /** A search that was cut short: a path whose last vertex occurs on it before. */
  ghost predicate ClosesOn<T(!new)>(g: map<T, set<T>>, path: seq<T>) {
    |path| >= 2 && IsPath(g, path) && path[|path| - 1] in path[..|path| - 1]
  }

  lemma AllFinished<T(!new)>(g: map<T, set<T>>, visited: set<T>, order: seq<T>, nodes: seq<T>)
    requires SearchInv(g, Search(visited, order), [])
    requires forall v :: v in g ==> v in nodes
    requires forall k :: 0 <= k < |nodes| ==> nodes[k] in Elements(order)
    ensures Acyclic(g)
  {
    TopologicalIsAcyclic(g, order);
  }

  lemma NothingSearched<T(!new)>(g: map<T, set<T>>)
    ensures SearchInv(g, Search({}, []), []) && Elements<T>([]) == {}
  {
  }

  lemma NothingOpen<T(!new)>(g: map<T, set<T>>, visited: set<T>, order: seq<T>)
    requires SearchInv(g, Search(visited, order), [])
    ensures visited == Elements(order) && visited <= g.Keys
  {
  }

  lemma NotAcyclic<T(!new)>(g: map<T, set<T>>, cycle: seq<T>)
    requires IsCycle(g, cycle)
    ensures !Acyclic(g)
  {
  }

  /** Drops what precedes the first occurrence of the path's last vertex. */
  method TrimToCycle<T(==, !new)>(ghost g: map<T, set<T>>, path: seq<T>) returns (cycle: seq<T>)
    requires ClosesOn(g, path)
    ensures IsCycle(g, cycle) && cycle == Trimmed(path)
  {
    var last := |path| - 1;
    var start := 0;
    while path[start] != path[last]
      invariant 0 <= start <= last && path[last] !in path[..start] && Trimmed(path[start..]) == Trimmed(path)
      decreases last - start
    {
      assert path[start..][1..] == path[start + 1..];
      start := start + 1;
    }
    RepeatIsCycle(g, path, start, last);
    cycle := path[start..];
    assert cycle == path[start..last + 1];
  }

  /** Once all its neighbors are finished, the vertex at the end of the path is too. */
  lemma FinishVertex<T(!new)>(g: map<T, set<T>>, visited: set<T>, order: seq<T>, path: seq<T>, node: T, neighbors: seq<T>)
    requires SearchInv(g, Search(visited, order), path + [node]) && node in g && node !in path
    requires forall y :: y in g[node] ==> y in neighbors
    requires forall k :: 0 <= k < |neighbors| ==> neighbors[k] in Elements(order)
    ensures SearchInv(g, Search(visited, order + [node]), path)
    ensures Elements(order + [node]) == Elements(order) + {node}
  {
    var o := order + [node];
    assert Elements(path + [node]) == Elements(path) + {node};
    assert Elements(o) == Elements(order) + {node};
    forall i | 0 <= i < |o| ensures o[i] in g && forall y :: y in g[o[i]] ==> y in o[..i] {
      if i < |order| { assert o[..i] == order[..i]; } else { assert o[..i] == order; }
    }
  }

  /** The error names the cycle that begins with the rejected edge and goes on along the path the
      sorted search finds: a function of the graph and the edge. */
  ghost predicate NamesCycle<T(!new)>(leq: (T, T) -> bool, g: map<T, set<T>>, from: T, to: T, err: Option<GraphError<T>>)
    requires from in g && to in g
  {
    var h := WithEdge(g, from, to);
    && err.Some? && err.value.WouldCycle? && err.value.from == from && err.value.to == to
    && IsCycle(h, err.value.cycle) && err.value.cycle[..2] == [from, to]
    && TotalOrder(leq) && Closed(h) && Some(err.value.cycle[1..]) == SortedPath(leq, h, to, from)
  }

  class DirectedAcyclicGraph<T(==, !new), A> {
    /** The order of the key type (cmp.Ordered). */
    const leq: (T, T) -> bool
    var Vertices: map<T, Vertex<T, A>>

    /** What the graph holds at this moment. */
    function Value(): State<T, A>
      reads this, Vertices.Values
    {
      map id | id in Vertices :: Row(Vertices[id].Attributes, Vertices[id].Edges, Vertices[id].InDegree, Vertices[id].OutDegree)
    }

    /** Each vertex object is registered under its own ID, so no two keys share one, and the graph
        is closed, acyclic and has exact degree counters. */
    ghost predicate Valid()
      reads this, Vertices.Values
    {
      TotalOrder(leq) && Holds(Value()) && Good(Value())
    }

    /** The vertex objects hold s, vertex by vertex. */
    ghost predicate Holds(s: State<T, A>)
      reads this, Vertices.Values
    {
      && s.Keys == Vertices.Keys
      && forall id {:trigger Vertices[id]} :: id in Vertices ==>
        Vertices[id].ID == id &&
        Row(Vertices[id].Attributes, Vertices[id].Edges, Vertices[id].InDegree, Vertices[id].OutDegree) == s[id]
    }

    lemma HoldsMeans(s: State<T, A>)
      requires Holds(s)
      ensures Value() == s && Holds(Value())
    {
      assert Value() == s;
    }

    /** A valid graph can be searched for cycles and sorted. */
    lemma ValidStores()
      requires Valid()
      ensures Stores(Adj(Value()))
    {
    }

    lemma ValidExactly()
      ensures Valid() <==> TotalOrder(leq) && Holds(Value()) && Good(Value())
    {
    }

    lemma ValidMeans()
      requires Valid()
      ensures TotalOrder(leq) && Holds(Value()) && Good(Value()) && Value().Keys == Vertices.Keys
    {
    }

    /** The vertex objects store exactly the vertices and edges of g, and keys can be sorted. */
    ghost predicate Stores(g: map<T, set<T>>)
      reads this, Vertices.Values
    {
      && TotalOrder(leq) && Closed(g) && g.Keys == Vertices.Keys
      && forall id {:trigger Vertices[id]} :: id in Vertices ==> Vertices[id].Edges.Keys == g[id]
    }

    constructor (leq: (T, T) -> bool)
      requires TotalOrder(leq)
      ensures Valid() && this.leq == leq && Vertices == map[] && Value() == map[]
    {
      this.leq := leq;
      Vertices := map[];
      new;
      HoldsMeans(map[]);
      EmptyGood<T, A>();
    }

    method AddVertex(id: T, attributes: seq<Attributes<A>>) returns (err: Option<GraphError<T>>)
      requires Valid()
      modifies this
      ensures Valid() && Value() == Apply(old(Value()), Op.AddVertex(id, attributes))
      ensures if id in old(Vertices) then Value() == old(Value()) else VertexIsAdded(old(Value()), Value(), id, attributes)
      ensures err == if id in old(Vertices) then Some(NodeExists(id)) else None
      ensures forall x {:trigger Vertices[x]} :: x in Vertices ==> if x in old(Vertices) then Vertices[x] == old(Vertices[x]) else fresh(Vertices[x])
    {
      hide LaterWins, Merged, VertexIsAdded, Good;
      if id in Vertices {
        return Some(NodeExists(id));
      }
      ghost var s := Value();
      var m := CopyAll(map[], attributes);
      AppliedIs(s, Op.AddVertex(id, attributes));
      AddedVertexGood(s, id, m);
      var vertex := new Vertex(id, m);
      Vertices := Vertices[id := vertex];
      err := None;
      HoldsMeans(AddedVertex(s, id, m));
    }

    method DeleteEdge(from: T, to: T) returns (err: Option<GraphError<T>>)
      requires Valid()
      modifies Vertices.Values
      ensures Valid() && Value() == Apply(old(Value()), Op.DeleteEdge(from, to))
      ensures if err == None then EdgeIsDeleted(old(Value()), Value(), from, to) else Value() == old(Value())
      ensures err ==
        if from !in Vertices then Some(NodeMissing(from))
        else if to !in Vertices then Some(NodeMissing(to))
        else if to !in old(Vertices[from].Edges) then Some(EdgeMissing(from, to))
        else None
    {
      hide *;
      ghost var s := Value();
      ValidMeans();
      DeleteApplied(s, from, to);
      AppliedIs(s, Op.DeleteEdge(from, to));
      if from !in Vertices { return Some(NodeMissing(from)); }
      RowOf(from);
      if to !in Vertices { return Some(NodeMissing(to)); }
      var fromNode, toNode := Vertices[from], Vertices[to];
      if to !in fromNode.Edges { return Some(EdgeMissing(from, to)); }
      DeleteExisting(from, to, fromNode, toNode, s);
      err := None;
    }

    static lemma DeleteApplied(s: State<T, A>, from: T, to: T)
      ensures Apply(s, Op.DeleteEdge(from, to)) == if from in s && to in s && to in s[from].edges then Unlinked(s, from, to) else s
    {
    }

    lemma RowOf(id: T)
      requires id in Vertices
      ensures id in Value() && Value()[id].edges == Vertices[id].Edges
    {
    }

    method DeleteExisting(from: T, to: T, fromNode: Vertex<T, A>, toNode: Vertex<T, A>, ghost s: State<T, A>)
      requires Valid() && s == Value() && from in s && to in s && to in s[from].edges
      requires from in Vertices && to in Vertices && fromNode == Vertices[from] && toNode == Vertices[to]
      modifies fromNode`Edges, fromNode`OutDegree, toNode`InDegree
      ensures Valid() && Value() == Unlinked(s, from, to)
    {
      hide *;
      ValidMeans();
      UnlinkedGood(s, from, to);
      DifferentEnds(s, from, to);
      Unlink(from, to, fromNode, toNode, s);
      HoldsMeans(Unlinked(s, from, to));
      ValidExactly();
    }

    static lemma DifferentEnds(s: State<T, A>, from: T, to: T)
      requires Good(s) && from in s && to in s[from].edges
      ensures from != to
    {
      NoSelfEdge(Adj(s), from);
      assert HasEdge(Adj(s), from, to);
    }

    /** Takes the edge out and uncounts it at both ends. */
    method Unlink(from: T, to: T, fromNode: Vertex<T, A>, toNode: Vertex<T, A>, ghost s: State<T, A>)
      requires Holds(s) && from in Vertices && to in Vertices && from != to
      requires fromNode == Vertices[from] && toNode == Vertices[to]
      modifies fromNode`Edges, fromNode`OutDegree, toNode`InDegree
      ensures Holds(Unlinked(s, from, to))
    {
      fromNode.Edges := fromNode.Edges - {to};
      fromNode.OutDegree := fromNode.OutDegree - 1;
      toNode.InDegree := toNode.InDegree - 1;
    }

    /** Registers the edge and counts it at both ends. */
    method Link(from: T, to: T, fromNode: Vertex<T, A>, toNode: Vertex<T, A>, ghost s: State<T, A>)
      requires Holds(s) && from in Vertices && to in Vertices && from != to
      requires fromNode == Vertices[from] && toNode == Vertices[to]
      modifies fromNode`Edges, fromNode`OutDegree, toNode`InDegree
      ensures Holds(Linked(s, from, to))
    {
      fromNode.Edges := fromNode.Edges[to := map[]];
      fromNode.OutDegree := fromNode.OutDegree + 1;
      toNode.InDegree := toNode.InDegree + 1;
    }

    /** Removes the vertex with its outgoing edges only, so what is left is closed, and valid,
        exactly if no edge led to it. */
    method DeleteVertex(id: T) returns (err: Option<GraphError<T>>)
      requires Valid()
      modifies this, Vertices.Values
      ensures err == if id in old(Vertices) then None else Some(NodeMissing(id))
      ensures id !in old(Vertices) ==> Valid() && Value() == old(Value())
      ensures id in old(Vertices) ==> Adj(Value()) == Adj(old(Value()))[id := {}] - {id}
      ensures id in old(Vertices) ==> VertexIsDeleted(old(Value()), Value(), id)
      ensures id in old(Vertices) ==> (Valid() <==> old(Vertices[id].InDegree) == 0)
      ensures id in old(Vertices) ==> (Closed(Adj(Value())) <==> old(Vertices[id].InDegree) == 0)
    {
      hide *;
      ValidMeans();
      if id !in Vertices { return Some(NodeMissing(id)); }
      ghost var s0 := Value();
      RemoveOutgoing(id);
      ghost var s := Value();
      AllDropped(s0, s, id);
      ValidMeans();
      RemovedVertexGood(s, id);
      DropVertex(id, s);
      err := None;
      HoldsMeans(s - {id});
      ValidExactly();
    }

    method DropVertex(id: T, ghost s: State<T, A>)
      requires Holds(s)
      modifies this
      ensures Holds(s - {id})
    {
      Vertices := Vertices - {id};
    }

    /** The loop of DeleteVertex. */
    method RemoveOutgoing(id: T)
      requires Valid() && id in Vertices
      modifies Vertices.Values
      ensures Valid() && Adj(Value()) == Adj(old(Value()))[id := {}] && id in Value()
      ensures Value()[id].edges == map[] && Value()[id].ind == old(Vertices[id].InDegree)
      ensures OutgoingDropped(old(Value()), Value(), id, {})
    {
      hide OutgoingDropped, ExactDegrees, IsCycle;
      ghost var s0 := Value();
      NoSelfEdge(Adj(s0), id);
      var todo := Vertices[id].Edges.Keys;
      assert Adj(s0)[id := todo] == Adj(s0) && todo <= Adj(s0)[id] && id in Value() && Value()[id].edges == Vertices[id].Edges;
      assert Value()[id].ind == Vertices[id].InDegree;
      NothingDropped(s0, id);
      hide *;
      while todo != {}
        invariant Valid() && id in Value() && todo == Value()[id].edges.Keys && todo <= Adj(s0)[id]
        invariant Adj(Value()) == Adj(s0)[id := todo] && Value()[id].ind == s0[id].ind
        invariant OutgoingDropped(s0, Value(), id, todo)
        decreases todo
      {
        var edge :| edge in todo;
        ghost var s := Value();
        ValidMeans();
        ExistingIsRemoved(s, id, edge);
        ShrinkRow(Adj(s0), id, todo, edge);
        DropsOne(s0, s, id, todo, edge);
        var err := DeleteEdge(id, edge);
        todo := todo - {edge};
      }
    }

    static lemma ShrinkRow(g: map<T, set<T>>, id: T, row: set<T>, edge: T)
      ensures WithoutEdge(g[id := row], id, edge) == g[id := row - {edge}]
    {
    }

    /** Adds an edge between existing vertices unless it is a self-reference or would close a cycle;
        then the graph is as before and the error names a cycle the edge would have closed. */
    method AddEdge(from: T, to: T, attributes: seq<Attributes<A>>) returns (err: Option<GraphError<T>>)
      requires Valid()
      modifies Vertices.Values
      ensures Valid() && Value() == Apply(old(Value()), Op.AddEdge(from, to, attributes))
      ensures err == None <==> Admits(old(Value()), from, to)
      ensures if err == None then EdgeIsAdded(old(Value()), Value(), from, to, attributes) else Value() == old(Value())
      ensures from !in Vertices ==> err == Some(NodeMissing(from))
      ensures from in Vertices && to !in Vertices ==> err == Some(NodeMissing(to))
      ensures from in Vertices && from == to ==> err == Some(SelfReference)
      ensures from in Vertices && to in Vertices && from != to && err != None ==> NamesCycle(leq, Adj(old(Value())), from, to, err)
    {
      if from !in Vertices { return Some(NodeMissing(from)); }
      if to !in Vertices { return Some(NodeMissing(to)); }
      if from == to { return Some(SelfReference); }
      ghost var s := Value();
      AddedEdgeGood(s, from, to, attributes);
      AppliedIs(s, Op.AddEdge(from, to, attributes));
      err := Connect(from, to, Vertices[from], Vertices[to], attributes, s);
      HoldsMeans(if err == None then AddedEdge(s, from, to, attributes) else s);
    }

    /** AddEdge between two different existing vertices. */
    method Connect(from: T, to: T, fromNode: Vertex<T, A>, toNode: Vertex<T, A>, attributes: seq<Attributes<A>>, ghost s: State<T, A>)
      returns (err: Option<GraphError<T>>)
      requires TotalOrder(leq) && Good(s) && Holds(s) && from in s && to in s && from != to
      requires fromNode == Vertices[from] && toNode == Vertices[to]
      modifies fromNode`Edges, fromNode`OutDegree, toNode`InDegree
      ensures err == None <==> Admits(s, from, to)
      ensures err == None ==> Holds(AddedEdge(s, from, to, attributes))
      ensures err != None ==> Holds(s) && NamesCycle(leq, Adj(s), from, to, err)
    {
      err := None;
      if to !in fromNode.Edges {
        ghost var path, closes;
        err, path, closes := TryEdge(from, to, fromNode, toNode, s);
        SearchDecides(Adj(s), from, to, path, closes);
        if err != None { return; }
      }
      CopyAttributes(from, to, fromNode, attributes, if to in s[from].edges then s else Linked(s, from, to));
    }

    method CopyAttributes(from: T, to: T, fromNode: Vertex<T, A>, attributes: seq<Attributes<A>>, ghost s: State<T, A>)
      requires Holds(s) && from in s && to in s[from].edges
      requires fromNode == Vertices[from]
      modifies fromNode`Edges
      ensures Holds(Annotated(s, from, to, attributes))
    {
      var m := CopyAll(fromNode.Edges[to], attributes);
      fromNode.Edges := fromNode.Edges[to := m];
    }

    /** The part of AddEdge that registers a new edge, searches for a cycle through it and, if there
        is one, takes the edge out again. */
    method TryEdge(from: T, to: T, fromNode: Vertex<T, A>, toNode: Vertex<T, A>, ghost s: State<T, A>)
      returns (err: Option<GraphError<T>>, ghost path: seq<T>, ghost closes: bool)
      requires TotalOrder(leq) && Good(s) && Holds(s) && from in s && to in s && from != to && to !in s[from].edges
      requires fromNode == Vertices[from] && toNode == Vertices[to]
      modifies fromNode`Edges, fromNode`OutDegree, toNode`InDegree
      ensures Closed(WithEdge(Adj(s), from, to)) && PathFound(WithEdge(Adj(s), from, to), to, from, path, closes)
      ensures closes ==> Some(path) == SortedPath(leq, WithEdge(Adj(s), from, to), to, from)
      ensures err == if closes then Some(WouldCycle(from, to, [from] + path)) else None
      ensures Holds(if closes then s else Linked(s, from, to))
    {
      hide *;
      GoodHeld(s);
      ghost var h := WithEdge(Adj(s), from, to);
      LinkedMaps(s, from, to);
      LinkedCloses(Adj(s), from, to);
      Link(from, to, fromNode, toNode, s);
      HoldsStores(Linked(s, from, to), h);
      var p, c := FindPath(to, from, h);
      path, closes, err := p, c, None;
      if c {
        RolledBack(s, from, to);
        Unlink(from, to, fromNode, toNode, Linked(s, from, to));
        err := Some(WouldCycle(from, to, [from] + p));
      }
    }

    lemma GoodHeld(s: State<T, A>)
      requires Good(s) && Holds(s)
      ensures Closed(Adj(s)) && Adj(s).Keys == s.Keys == Vertices.Keys
    {
    }

    static lemma LinkedCloses(g: map<T, set<T>>, from: T, to: T)
      requires Closed(g) && from in g && to in g
      ensures Closed(WithEdge(g, from, to))
    {
    }

    lemma HoldsStores(s: State<T, A>, g: map<T, set<T>>)
      requires Holds(s) && TotalOrder(leq) && g == Adj(s) && Closed(g)
      ensures Stores(g)
    {
    }

    /** Whether `to` can be reached from `from` by at least one edge, and how. */
    method FindPath(from: T, to: T, ghost g: map<T, set<T>>) returns (path: seq<T>, found: bool)
      requires Stores(g) && from in Vertices && to in Vertices
      ensures PathFound(g, from, to, path, found)
      ensures found ==> Some(path) == SortedPath(leq, g, from, to)
    {
      var visited := {from};
      var stack := [from];
      ReachesRefl(g, from);
      while |stack| > 0
        invariant from in visited && Expanded(g, to, visited, stack)
        invariant forall x :: x in visited ==> Reaches(g, from, x)
        decreases g.Keys - visited, |stack|
      {
        var node := stack[|stack| - 1];
        ghost var before := stack;
        assert node in before;
        stack := stack[..|stack| - 1];
        assert before == stack + [node];
        var todo := Vertices[node].Edges.Keys;
        ghost var start, rest := visited, stack;
        while todo != {}
          invariant todo <= g[node] && node in visited && from in visited && start <= visited
          invariant rest <= stack && (visited == start ==> stack == rest)
          invariant forall x :: x in visited ==> Reaches(g, from, x)
          invariant ExpandedBut(g, to, visited, stack, node)
          invariant forall y :: y in g[node] ==> y in todo || (y in visited && y != to)
          decreases todo
        {
          var neighbor :| neighbor in todo;
          todo := todo - {neighbor};
          assert HasEdge(g, node, neighbor) && neighbor in g;
          ReachesStep(g, from, node, neighbor);
          if neighbor == to {
            path, found := FindSortedPath(from, to, g);
            ghost var p :| PathFromTo(g, p, from, node);
            EdgePath(g, node, to);
            JoinPaths(g, p, [node, to]);
            assert PathFromTo(g, p + [node, to][1..], from, to);
            return;
          }
          if neighbor !in visited {
            PushKeeps(g, to, visited, stack, node, neighbor);
            visited := visited + {neighbor};
            stack := stack + [neighbor];
          }
        }
      }
      NothingLeft(g, from, to, visited);
      path, found := [], false;
    }

    method FindSortedPath(from: T, to: T, ghost g: map<T, set<T>>) returns (path: seq<T>, found: bool)
      requires Stores(g) && from in Vertices && to in Vertices
      ensures PathFound(g, from, to, path, found)
      ensures (if found then Some(path) else None) == SortedPath(leq, g, from, to)
    {
      hide Acyclic, PathFound, IsSortedList, Searched, Looked, TotalOrder, HasEdge, Expanded, ExpandedBut, ParentTree;
      SearchBegins(g, from, to);
      var visited := {from};
      var parent: map<T, T> := map[];
      ghost var paths: map<T, seq<T>> := map[from := [from]];
      var stack := [from];
      while |stack| > 0
        invariant Expanded(g, to, visited, stack)
        invariant ParentTree(g, from, visited, parent, paths)
        invariant paths.Keys == visited <= g.Keys && forall x :: x in stack ==> x in visited
        invariant Searched(leq, g, to, Seen(paths, stack)) == SortedPath(leq, g, from, to)
        decreases g.Keys - visited, |stack|
      {
        var node := stack[|stack| - 1];
        SearchPops(g, from, to, visited, stack, parent, paths);
        SearchGoesOn(leq, g, to, Seen(paths, stack));
        var neighbors := SortedKeys(leq, Vertices[node].Edges.Keys);
        path, found, visited, parent, paths, stack :=
          LookAtEdges(from, to, node, neighbors, g, visited, parent, paths, stack[..|stack| - 1]);
        if found { return; }
        SearchPops(g, from, to, visited, stack, parent, paths);
      }
      SearchPops(g, from, to, visited, stack, parent, paths);
      NothingLeft(g, from, to, visited);
      SearchGoesOn(leq, g, to, Seen(paths, []));
      path, found := [], false;
    }

    // ---- cycle detection and topological sort ----

    /** Reports whether the graph has a cycle, and one if so. */
    method HasCycle(ghost g: map<T, set<T>>) returns (cyclic: bool, cycle: seq<T>)
      requires Stores(g)
      ensures cyclic <==> !Acyclic(g)
      ensures cyclic ==> IsCycle(g, cycle)
      ensures (if cyclic then Some(cycle) else None) == FirstCycle(leq, g)
    {
      hide Acyclic, TotalOrder, IsPath, SearchInv, HuntAll, HuntBelow, Trimmed, IsCycle, Elements, Sorted;
      NothingSearched(g);
      var visited: set<T>, recStack: set<T>, cyclePath: seq<T> := {}, {}, [];
      ghost var order: seq<T> := [];
      var nodes := SortedKeys(leq, Vertices.Keys);
      for i := 0 to |nodes|
        invariant recStack == {} && cyclePath == [] && SearchInv(g, Search(visited, order), [])
        invariant forall k :: 0 <= k < i ==> nodes[k] in Elements(order)
        invariant visited == Elements(order) && visited <= g.Keys
        invariant HuntAll(leq, g, nodes[i..], [], visited) == HuntAll(leq, g, nodes, [], {})
      {
        HuntGoesOn(leq, g, nodes, i, [], visited);
        if nodes[i] !in visited {
          cyclePath := [];
          cyclic, visited, recStack, cyclePath, order := CycleSearch(nodes[i], visited, recStack, cyclePath, order, g);
          if cyclic {
            cycle := TrimToCycle(g, cyclePath);
            NotAcyclic(g, cycle);
            return;
          }
          NothingOpen(g, visited, order);
        }
      }
      AllFinished(g, visited, order, nodes);
      HuntGoesOn(leq, g, nodes, |nodes|, [], visited);
      cyclic, cycle := false, [];
    }

    /** Depth-first search below node. Without a cycle it ends with node and everything below it
        finished, children first; otherwise with a path that runs into itself. */
    method CycleSearch(node: T, visited0: set<T>, recStack0: set<T>, path0: seq<T>, ghost order0: seq<T>, ghost g: map<T, set<T>>)
      returns (found: bool, visited: set<T>, recStack: set<T>, path: seq<T>, ghost order: seq<T>)
      requires Stores(g) && node in Vertices && node !in visited0
      requires recStack0 == Elements(path0) && SearchInv(g, Search(visited0, order0), path0) && Below(g, path0, [node])
      ensures found ==> ClosesOn(g, path)
      ensures HuntBelow(leq, g, node, path0, visited0) == Hunt(if found then Some(path) else None, visited)
      ensures !found ==> path == path0 && recStack == recStack0 && SearchInv(g, Search(visited, order), path0)
      ensures !found ==> Elements(order0) + {node} <= Elements(order) && visited0 <= visited
      decreases g.Keys - visited0
    {
      hide HuntAll, HuntBelow, TotalOrder, Sorted;
      HuntEnters(leq, g, node, path0, visited0);
      visited, recStack, path, order := visited0 + {node}, recStack0 + {node}, path0 + [node], order0;
      PathExtends(g, path0, node);
      ghost var grey := path;
      assert Elements(grey) == Elements(path0) + {node};
      var neighbors := SortedKeys(leq, Vertices[node].Edges.Keys);
      for i := 0 to |neighbors|
        invariant path == grey && recStack == Elements(grey) && SearchInv(g, Search(visited, order), grey)
        invariant Elements(order0) <= Elements(order) && visited0 + {node} <= visited
        invariant forall k :: 0 <= k < i ==> neighbors[k] in Elements(order)
        invariant HuntAll(leq, g, neighbors[i..], grey, visited) == HuntBelow(leq, g, node, path0, visited0)
      {
        var neighbor := neighbors[i];
        HuntGoesOn(leq, g, neighbors, i, grey, visited);
        assert HasEdge(g, node, neighbor);
        if neighbor !in visited {
          found, visited, recStack, path, order := CycleSearch(neighbor, visited, recStack, path, order, g);
          if found { return; }
        } else if neighbor in recStack {
          PathExtends(g, grey, neighbor);
          path := path + [neighbor];
          return true, visited, recStack, path, order;
        }
      }
      HuntGoesOn(leq, g, neighbors, |neighbors|, grey, visited);
      recStack := recStack - {node};
      path := path[..|path| - 1];
      FinishVertex(g, visited, order, path0, node, neighbors);
      order := order + [node];
      found := false;
    }

    /** Lists the vertices so that each follows all its out-neighbours, in an order that depends
        on the vertex and edge sets only; fails with a cycle exactly if there is one. */
    method TopologicalSort(ghost g: map<T, set<T>>) returns (order: seq<T>, err: Option<seq<T>>)
      requires Stores(g)
      ensures err == None <==> Acyclic(g)
      ensures err != None ==> order == [] && IsCycle(g, err.value) && err == FirstCycle(leq, g)
      ensures err == None ==> order == FinishOrder(leq, g) && IsTopologicalOrder(g, order)
    {
      var cyclic, nodes := HasCycle(g);
      if cyclic { return [], Some(nodes); }
      order := SortAll(g);
      FinishOrderIsTopological(leq, g);
      err := None;
    }

    method SortAll(ghost g: map<T, set<T>>) returns (order: seq<T>)
      requires Stores(g)
      ensures order == FinishOrder(leq, g)
    {
      var visited: set<T> := {};
      order := [];
      var vertices := SortedKeys(leq, Vertices.Keys);
      for i := 0 to |vertices|
        invariant visited <= g.Keys
        invariant VisitAll(leq, g, vertices[i..], Search(visited, order)) == VisitAll(leq, g, vertices, Search({}, []))
      {
        assert vertices[i..][1..] == vertices[i + 1..];
        if vertices[i] !in visited {
          visited, order := SortBelow(vertices[i], visited, order, g);
        }
      }
    }

    /** The recursive closure of TopologicalSort. */
    method SortBelow(node: T, visited0: set<T>, order0: seq<T>, ghost g: map<T, set<T>>) returns (visited: set<T>, order: seq<T>)
      requires Stores(g) && node in Vertices && node !in visited0 && visited0 <= g.Keys
      ensures Search(visited, order) == Visit(leq, g, node, Search(visited0, order0))
      decreases g.Keys - visited0
    {
      visited, order := visited0 + {node}, order0;
      var neighbors := SortedKeys(leq, Vertices[node].Edges.Keys);
      ghost var start := Search(visited, order);
      for i := 0 to |neighbors|
        invariant visited0 + {node} <= visited <= g.Keys
        invariant VisitAll(leq, g, neighbors[i..], Search(visited, order)) == VisitAll(leq, g, neighbors, start)
      {
        assert neighbors[i..][1..] == neighbors[i + 1..];
        if neighbors[i] !in visited {
          visited, order := SortBelow(neighbors[i], visited, order, g);
        }
      }
      order := order + [node];
    }

    // ---- reversal ----

    /** A new graph with the same vertices and every edge turned around, all with their attributes.
        It never fails. (The loops range over the vertices as they are when the call begins.) */
    method Reverse() returns (reverse: DirectedAcyclicGraph<T, A>, err: Option<GraphError<T>>)
      requires Valid()
      ensures err == None && fresh(reverse) && reverse.Valid() && reverse.Value() == Reversal(Value())
      ensures IsTurned(Value(), reverse.Value())
      ensures forall id {:trigger reverse.Vertices[id]} :: id in reverse.Vertices ==> fresh(reverse.Vertices[id])
    {
      hide *;
      var s := Value();
      ValidMeans();
      reverse := CopyVertices(leq, s);
      err := reverse.AddReversed(s);
      GoodHeld(s);
      ReversalTurned(s);
    }

    /** The first loop of Reverse. */
    static method CopyVertices(leq: (T, T) -> bool, s: State<T, A>) returns (reverse: DirectedAcyclicGraph<T, A>)
      requires TotalOrder(leq)
      ensures fresh(reverse) && reverse.Valid() && reverse.Value() == EdgesDropped(s, s.Keys)
      ensures forall id {:trigger reverse.Vertices[id]} :: id in reverse.Vertices ==> fresh(reverse.Vertices[id])
    {
      hide *;
      reverse := new DirectedAcyclicGraph(leq);
      var todo := s.Keys;
      ghost var copied: set<T> := {};
      NothingCopied(s);
      while todo != {}
        invariant todo <= s.Keys && fresh(reverse) && reverse.Valid()
        invariant forall id {:trigger reverse.Vertices[id]} :: id in reverse.Vertices ==> fresh(reverse.Vertices[id])
        invariant copied == s.Keys - todo && reverse.Value() == EdgesDropped(s, copied)
        decreases todo
      {
        var parent :| parent in todo;
        OneMoreCopied(s, copied, parent);
        var err := reverse.AddVertex(parent, [s[parent].attributes]);
        todo, copied := todo - {parent}, copied + {parent};
      }
      assert copied == s.Keys;
    }

    /** The second loop of Reverse: child -> parent for every parent -> child of s. */
    method AddReversed(s: State<T, A>) returns (err: Option<GraphError<T>>)
      requires Valid() && Good(s) && Value() == EdgesDropped(s, s.Keys)
      modifies Vertices.Values
      ensures Valid() && err == None && Value() == Reversal(s)
    {
      hide *;
      var todo := s.Keys;
      ghost var turned: set<(T, T)> := {};
      err := None;
      ValidMeans();
      NothingTurned(s, Value());
      while todo != {}
        invariant todo <= s.Keys && err == None && Valid() && Turning(s, Value(), turned)
        invariant forall x, y {:trigger (x, y) in turned} :: x in s && x !in todo && y in s[x].edges ==> (x, y) in turned
        decreases todo
      {
        var parent :| parent in todo;
        err, turned := AddReversedFrom(s, parent, turned);
        todo := todo - {parent};
      }
      AllTurned(s, Value(), turned);
    }

    method AddReversedFrom(s: State<T, A>, parent: T, ghost turned0: set<(T, T)>)
      returns (err: Option<GraphError<T>>, ghost turned: set<(T, T)>)
      requires Valid() && Good(s) && parent in s && Turning(s, Value(), turned0)
      modifies Vertices.Values
      ensures Valid() && err == None && turned0 <= turned && Turning(s, Value(), turned)
      ensures forall y :: y in s[parent].edges ==> (parent, y) in turned
    {
      hide *;
      var children := s[parent].edges.Keys;
      turned, err := turned0, None;
      while children != {}
        invariant children <= s[parent].edges.Keys && err == None && Valid() && turned0 <= turned && Turning(s, Value(), turned)
        invariant forall y :: y in s[parent].edges ==> y in children || (parent, y) in turned
        decreases children
      {
        var child :| child in children;
        TurnOne(s, Value(), turned, parent, child);
        AdmittedIsAdded(Value(), child, parent, [s[parent].edges[child]]);
        err := AddEdge(child, parent, [s[parent].edges[child]]);
        turned := turned + {(parent, child)};
        children := children - {child};
      }
    }
  }
}
