/** What the searches of a graph report, as functions of the vertex and edge sets alone: the path that
    closes a cycle, and the cycle of a graph that has one. */
module Searches {
  import opened Graphs
  import opened Orders
  import opened TopoOrder

  /** The path by which each visited vertex was first met, and the vertices to be expanded. */
  datatype Seen<T> = Seen(paths: map<T, seq<T>>, stack: seq<T>)

  /** The neighbors of node not met before are met now. */
  ghost function Looked<T(!new)>(node: T, neighbors: seq<T>, s: Seen<T>): (r: Seen<T>)
    requires node in s.paths && forall x :: x in s.stack ==> x in s.paths
    ensures s.paths.Keys <= r.paths.Keys <= s.paths.Keys + Elements(neighbors)
    ensures r.paths.Keys == s.paths.Keys ==> r.stack == s.stack
    ensures forall x :: x in r.stack ==> x in r.paths
  {
    if neighbors == [] then s
    else if neighbors[0] in s.paths then Looked(node, neighbors[1..], s)
    else Looked(node, neighbors[1..], Seen(s.paths[neighbors[0] := s.paths[node] + [neighbors[0]]], s.stack + [neighbors[0]]))
  }

  lemma LooksOn<T(!new)>(node: T, neighbors: seq<T>, i: nat, s: Seen<T>)
    requires node in s.paths && (forall x :: x in s.stack ==> x in s.paths) && i <= |neighbors|
    ensures Looked(node, neighbors[i..], s) ==
      if i == |neighbors| then s
      else Looked(node, neighbors[i + 1..],
        if neighbors[i] in s.paths then s else Seen(s.paths[neighbors[i] := s.paths[node] + [neighbors[i]]], s.stack + [neighbors[i]]))
  {
    if i < |neighbors| { assert neighbors[i..][1..] == neighbors[i + 1..] && neighbors[i..][0] == neighbors[i]; }
  }

  ghost function Searched<T(!new)>(leq: (T, T) -> bool, g: map<T, set<T>>, to: T, s: Seen<T>): Option<seq<T>>
    requires TotalOrder(leq) && Closed(g) && s.paths.Keys <= g.Keys && forall x :: x in s.stack ==> x in s.paths
    decreases g.Keys - s.paths.Keys, |s.stack|
  {
    if s.stack == [] then None
    else
      var node := s.stack[|s.stack| - 1];
      assert node in s.stack;
      SortedIn(leq, g, node);
      if to in g[node] then Some(s.paths[node] + [to])
      else Searched(leq, g, to, Looked(node, Sorted(leq, g[node]), s.(stack := s.stack[..|s.stack| - 1])))
  }

  lemma SearchGoesOn<T(!new)>(leq: (T, T) -> bool, g: map<T, set<T>>, to: T, s: Seen<T>)
    requires TotalOrder(leq) && Closed(g) && s.paths.Keys <= g.Keys && (forall x :: x in s.stack ==> x in s.paths)
    ensures s.stack == [] ==> Searched(leq, g, to, s) == None
    ensures s.stack != [] ==> var node := s.stack[|s.stack| - 1];
      node in g && node in s.paths &&
      if to in g[node] then Searched(leq, g, to, s) == Some(s.paths[node] + [to])
      else var more := Looked(node, Sorted(leq, g[node]), s.(stack := s.stack[..|s.stack| - 1]));
        more.paths.Keys <= g.Keys && Searched(leq, g, to, s) == Searched(leq, g, to, more)
  {
    hide TotalOrder, Looked;
    if s.stack != [] { SortedIn(leq, g, s.stack[|s.stack| - 1]); }
  }

  /** The path from one vertex to another that is reported. */
  ghost function SortedPath<T(!new)>(leq: (T, T) -> bool, g: map<T, set<T>>, from: T, to: T): Option<seq<T>>
    requires TotalOrder(leq) && Closed(g) && from in g
  {
    Searched(leq, g, to, Seen(map[from := [from]], [from]))
  }

  /** What a search for a cycle ends with: the path that runs into itself, if any, and all visited. */
  datatype Hunt<T> = Hunt(found: Option<seq<T>>, visited: set<T>)

  ghost function HuntBelow<T(!new)>(leq: (T, T) -> bool, g: map<T, set<T>>, node: T, path: seq<T>, visited: set<T>): (r: Hunt<T>)
    requires TotalOrder(leq) && Closed(g) && node in g && node !in visited && visited <= g.Keys
    ensures visited + {node} <= r.visited <= g.Keys
    decreases g.Keys - visited, 0
  {
    SortedIn(leq, g, node);
    HuntAll(leq, g, Sorted(leq, g[node]), path + [node], visited + {node})
  }

  ghost function HuntAll<T(!new)>(leq: (T, T) -> bool, g: map<T, set<T>>, nodes: seq<T>, path: seq<T>, visited: set<T>): (r: Hunt<T>)
    requires TotalOrder(leq) && Closed(g) && visited <= g.Keys && forall x :: x in nodes ==> x in g
    ensures visited <= r.visited <= g.Keys
    decreases g.Keys - visited, |nodes|
  {
    if nodes == [] then Hunt(None, visited)
    else if nodes[0] in visited then
      if nodes[0] in path then Hunt(Some(path + [nodes[0]]), visited) else HuntAll(leq, g, nodes[1..], path, visited)
    else
      var h := HuntBelow(leq, g, nodes[0], path, visited);
      if h.found.Some? then h else HuntAll(leq, g, nodes[1..], path, h.visited)
  }

  lemma HuntEnters<T(!new)>(leq: (T, T) -> bool, g: map<T, set<T>>, node: T, path: seq<T>, visited: set<T>)
    requires TotalOrder(leq) && Closed(g) && node in g && node !in visited && visited <= g.Keys
    ensures forall x :: x in Sorted(leq, g[node]) ==> x in g
    ensures HuntBelow(leq, g, node, path, visited) == HuntAll(leq, g, Sorted(leq, g[node]), path + [node], visited + {node})
  {
    hide TotalOrder, HuntAll;
    SortedIn(leq, g, node);
  }

  lemma HuntGoesOn<T(!new)>(leq: (T, T) -> bool, g: map<T, set<T>>, nodes: seq<T>, i: nat, path: seq<T>, visited: set<T>)
    requires TotalOrder(leq) && Closed(g) && visited <= g.Keys && (forall x :: x in nodes ==> x in g) && i <= |nodes|
    ensures HuntAll(leq, g, nodes[i..], path, visited) ==
      if i == |nodes| then Hunt(None, visited)
      else if nodes[i] in visited then
        if nodes[i] in path then Hunt(Some(path + [nodes[i]]), visited) else HuntAll(leq, g, nodes[i + 1..], path, visited)
      else
        var h := HuntBelow(leq, g, nodes[i], path, visited);
        if h.found.Some? then h else HuntAll(leq, g, nodes[i + 1..], path, h.visited)
  {
    hide TotalOrder, HuntBelow;
    if i < |nodes| { assert nodes[i..][1..] == nodes[i + 1..] && nodes[i..][0] == nodes[i]; }
  }

  /** The path without what precedes the first occurrence of its last vertex. */
  ghost function Trimmed<T>(path: seq<T>): seq<T>
    requires path != []
  {
    if path[0] == path[|path| - 1] then path else Trimmed(path[1..])
  }

  /** The cycle that is reported, if there is one. */
  ghost function FirstCycle<T(!new)>(leq: (T, T) -> bool, g: map<T, set<T>>): Option<seq<T>>
    requires TotalOrder(leq) && Closed(g)
  {
    SortedLists(leq, g.Keys);
    match HuntAll(leq, g, Sorted(leq, g.Keys), [], {}).found
    case Some(path) => if path == [] then None else Some(Trimmed(path))
    case None => None
  }
}
