/** The order a sorted depth-first search finishes the vertices of a graph in, as a
    function of the vertex and edge sets alone, and why it is a topological order. */
module TopoOrder {
  import opened Graphs
  import opened Orders

  datatype Search<T> = Search(visited: set<T>, order: seq<T>)

  ghost function Visit<T(!new)>(leq: (T, T) -> bool, g: map<T, set<T>>, node: T, st: Search<T>): (r: Search<T>)
    requires TotalOrder(leq) && Closed(g) && node in g && node !in st.visited && st.visited <= g.Keys
    ensures st.visited + {node} <= r.visited <= g.Keys
    decreases g.Keys - st.visited, 0
  {
    SortedLists(leq, g[node]);
    var s1 := VisitAll(leq, g, Sorted(leq, g[node]), st.(visited := st.visited + {node}));
    s1.(order := s1.order + [node])
  }

  ghost function VisitAll<T(!new)>(leq: (T, T) -> bool, g: map<T, set<T>>, nodes: seq<T>, st: Search<T>): (r: Search<T>)
    requires TotalOrder(leq) && Closed(g) && st.visited <= g.Keys
    requires forall x :: x in nodes ==> x in g
    ensures st.visited <= r.visited <= g.Keys
    decreases g.Keys - st.visited, |nodes|
  {
    if nodes == [] then st
    else if nodes[0] in st.visited then VisitAll(leq, g, nodes[1..], st)
    else VisitAll(leq, g, nodes[1..], Visit(leq, g, nodes[0], st))
  }

  ghost function FinishOrder<T(!new)>(leq: (T, T) -> bool, g: map<T, set<T>>): seq<T>
    requires TotalOrder(leq) && Closed(g)
  {
    SortedLists(leq, g.Keys);
    VisitAll(leq, g, Sorted(leq, g.Keys), Search({}, [])).order
  }

  function Elements<T>(s: seq<T>): set<T> {
    set x | x in s
  }

  /** Visited vertices are the finished ones, children first, and those on the path being explored. */
  ghost predicate SearchInv<T(!new)>(g: map<T, set<T>>, st: Search<T>, path: seq<T>) {
    && st.visited == Elements(st.order) + Elements(path)
    && Elements(st.order) !! Elements(path)
    && Distinct(st.order) && ChildrenFirst(g, st.order) && st.visited <= g.Keys
  }

  /** path is empty or a path whose last vertex has an edge to each of nodes. */
  ghost predicate Below<T(!new)>(g: map<T, set<T>>, path: seq<T>, nodes: seq<T>) {
    path != [] ==> IsPath(g, path) && forall x :: x in nodes ==> HasEdge(g, path[|path| - 1], x)
  }

  lemma PathExtends<T(!new)>(g: map<T, set<T>>, path: seq<T>, x: T)
    requires Below(g, path, [x])
    ensures IsPath(g, path + [x])
  {
    if path == [] {
      assert path + [x] == [x];
    } else {
      assert x in [x];
      EdgePath(g, path[|path| - 1], x);
      JoinPaths(g, path, [path[|path| - 1], x]);
      assert path + [x] == path + [path[|path| - 1], x][1..];
    }
  }

  /** A vertex of an acyclic graph has no edge back into the path that leads to it. */
  lemma NoBackEdge<T(!new)>(g: map<T, set<T>>, path: seq<T>, x: T)
    requires Acyclic(g) && path != [] && Below(g, path, [x])
    ensures x !in path
  {
    PathExtends(g, path, x);
    if x in path {
      var i :| 0 <= i < |path| && path[i] == x;
      RepeatIsCycle(g, path + [x], i, |path|);
    }
  }

  /** Putting node behind its finished out-neighbours keeps children first. */
  lemma Finished<T(!new)>(g: map<T, set<T>>, order: seq<T>, node: T)
    requires ChildrenFirst(g, order) && node in g && forall y :: y in g[node] ==> y in order
    ensures ChildrenFirst(g, order + [node]) && Elements(order + [node]) == Elements(order) + {node}
  {
    var r := order + [node];
    assert r[..|order|] == order;
    forall i | 0 <= i < |r| ensures r[i] in g && forall y :: y in g[r[i]] ==> y in r[..i] {
      if i < |order| { assert r[..i] == order[..i]; }
    }
  }

  /** Entering node: it joins the path, and its out-neighbours are below it. */
  lemma Entered<T(!new)>(leq: (T, T) -> bool, g: map<T, set<T>>, node: T, st: Search<T>, path: seq<T>)
    requires TotalOrder(leq) && node in g && node !in st.visited && SearchInv(g, st, path) && Below(g, path, [node])
    ensures SearchInv(g, st.(visited := st.visited + {node}), path + [node])
    ensures Below(g, path + [node], Sorted(leq, g[node]))
  {
    hide Distinct, ChildrenFirst, TotalOrder;
    PathExtends(g, path, node);
    assert Elements(path + [node]) == Elements(path) + {node};
    SortedLists(leq, g[node]);
    forall x | x in Sorted(leq, g[node]) ensures HasEdge(g, node, x) {
    }
  }

  /** Leaving node: it is finished, and the path is as before. */
  lemma Left<T(!new)>(leq: (T, T) -> bool, g: map<T, set<T>>, node: T, s1: Search<T>, path: seq<T>)
    requires TotalOrder(leq) && node in g && SearchInv(g, s1, path + [node]) && Elements(Sorted(leq, g[node])) <= Elements(s1.order) && node !in Elements(path)
    ensures SearchInv(g, s1.(order := s1.order + [node]), path)
    ensures Elements(s1.order + [node]) == Elements(s1.order) + {node}
  {
    hide TotalOrder;
    SortedLists(leq, g[node]);
    forall y | y in g[node] ensures y in s1.order {
      assert y in Elements(Sorted(leq, g[node]));
    }
    assert Elements(path + [node]) == Elements(path) + {node};
    assert node in Elements(path + [node]);
    Finished(g, s1.order, node);
  }

  lemma {:induction false} VisitSound<T(!new)>(leq: (T, T) -> bool, g: map<T, set<T>>, node: T, st: Search<T>, path: seq<T>)
    requires TotalOrder(leq) && Closed(g) && Acyclic(g) && node in g && node !in st.visited
    requires SearchInv(g, st, path) && Below(g, path, [node])
    ensures var r := Visit(leq, g, node, st);
      SearchInv(g, r, path) && Elements(st.order) + {node} <= Elements(r.order)
    decreases g.Keys - st.visited, 0
  {
    hide TotalOrder, Acyclic, ChildrenFirst, IsPath, Distinct, SearchInv, Below;
    Entered(leq, g, node, st, path);
    var s0 := st.(visited := st.visited + {node});
    SortedIn(leq, g, node);
    VisitAllSound(leq, g, Sorted(leq, g[node]), s0, path + [node]);
    NotOnPath(g, node, st, path);
    Left(leq, g, node, VisitAll(leq, g, Sorted(leq, g[node]), s0), path);
  }

  lemma SortedIn<T(!new)>(leq: (T, T) -> bool, g: map<T, set<T>>, node: T)
    requires TotalOrder(leq) && Closed(g) && node in g
    ensures forall x :: x in Sorted(leq, g[node]) ==> x in g
  {
    hide TotalOrder;
    SortedLists(leq, g[node]);
  }

  lemma NotOnPath<T(!new)>(g: map<T, set<T>>, node: T, st: Search<T>, path: seq<T>)
    requires SearchInv(g, st, path) && node !in st.visited
    ensures node !in Elements(path)
  {
  }

  lemma {:induction false} VisitAllSound<T(!new)>(leq: (T, T) -> bool, g: map<T, set<T>>, nodes: seq<T>, st: Search<T>, path: seq<T>)
    requires TotalOrder(leq) && Closed(g) && Acyclic(g)
    requires forall x :: x in nodes ==> x in g
    requires SearchInv(g, st, path) && Below(g, path, nodes)
    ensures var r := VisitAll(leq, g, nodes, st);
      SearchInv(g, r, path) && Elements(st.order) + Elements(nodes) <= Elements(r.order)
    decreases g.Keys - st.visited, |nodes|
  {
    if nodes != [] {
      assert nodes[0] in nodes;
      assert Elements(nodes) == {nodes[0]} + Elements(nodes[1..]);
      assert Below(g, path, [nodes[0]]);
      assert forall x :: x in nodes[1..] ==> x in nodes;
      if nodes[0] in st.visited {
        if path != [] { NoBackEdge(g, path, nodes[0]); }
        VisitAllSound(leq, g, nodes[1..], st, path);
      } else {
        VisitSound(leq, g, nodes[0], st, path);
        VisitAllSound(leq, g, nodes[1..], Visit(leq, g, nodes[0], st), path);
      }
    }
  }

  /** On an acyclic graph the finish order lists every vertex once, after all its out-neighbours. */
  lemma FinishOrderIsTopological<T(!new)>(leq: (T, T) -> bool, g: map<T, set<T>>)
    requires TotalOrder(leq) && Closed(g) && Acyclic(g)
    ensures IsTopologicalOrder(g, FinishOrder(leq, g))
  {
    SortedLists(leq, g.Keys);
    var nodes := Sorted(leq, g.Keys);
    VisitAllSound(leq, g, nodes, Search({}, []), []);
    forall v | v in g ensures v in FinishOrder(leq, g) {
      assert v in Elements(nodes);
    }
  }

  /** A graph has a topological order exactly if it has no cycle. */
  lemma AcyclicIffTopological<T(!new)>(leq: (T, T) -> bool, g: map<T, set<T>>)
    requires TotalOrder(leq) && Closed(g)
    ensures Acyclic(g) <==> exists order: seq<T> :: IsTopologicalOrder(g, order)
  {
    if Acyclic(g) {
      FinishOrderIsTopological(leq, g);
    }
    if order: seq<T> :| IsTopologicalOrder(g, order) {
      TopologicalIsAcyclic(g, order);
    }
  }
}
