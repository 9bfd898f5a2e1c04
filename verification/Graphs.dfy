/** Finite directed graphs as adjacency maps: paths, cycles, reachability, and the
    facts about them that the mutable graph and its concurrent drivers rest on. */
module Graphs {

  datatype Option<+V> = None | Some(value: V)

  predicate HasEdge<T>(g: map<T, set<T>>, a: T, b: T) {
    a in g && b in g[a]
  }

  /** Every edge ends at a vertex of the graph. */
  ghost predicate Closed<T(!new)>(g: map<T, set<T>>) {
    forall v :: v in g ==> g[v] <= g.Keys
  }

  ghost predicate EdgeAt<T>(g: map<T, set<T>>, p: seq<T>, i: int)
    requires 0 <= i < |p| - 1
  {
    HasEdge(g, p[i], p[i + 1])
  }

  ghost predicate IsPath<T>(g: map<T, set<T>>, p: seq<T>) {
    |p| > 0 && forall i :: 0 <= i < |p| - 1 ==> EdgeAt(g, p, i)
  }

  ghost predicate PathFromTo<T>(g: map<T, set<T>>, p: seq<T>, a: T, b: T) {
    IsPath(g, p) && p[0] == a && p[|p| - 1] == b
  }

  /** b is a or can be reached from a along edges. */
  ghost predicate Reaches<T(!new)>(g: map<T, set<T>>, a: T, b: T) {
    exists p: seq<T> :: PathFromTo(g, p, a, b)
  }

  /** A closed walk with at least one edge, first vertex repeated at the end. */
  ghost predicate IsCycle<T>(g: map<T, set<T>>, c: seq<T>) {
    |c| >= 2 && IsPath(g, c) && c[0] == c[|c| - 1]
  }

  ghost predicate Acyclic<T(!new)>(g: map<T, set<T>>) {
    forall c: seq<T> :: !IsCycle(g, c)
  }

  ghost function Preds<T(!new)>(g: map<T, set<T>>, v: T): set<T> {
    set u | u in g && v in g[u]
  }

  function Converse<T>(g: map<T, set<T>>): map<T, set<T>> {
    map v | v in g :: set u | u in g && v in g[u]
  }

  function WithVertex<T>(g: map<T, set<T>>, v: T): map<T, set<T>> {
    if v in g then g else g[v := {}]
  }

  function WithEdge<T>(g: map<T, set<T>>, a: T, b: T): map<T, set<T>>
    requires a in g
  {
    g[a := g[a] + {b}]
  }

  // ---- paths ----

  lemma SlicePath<T(!new)>(g: map<T, set<T>>, p: seq<T>, i: nat, j: nat)
    requires IsPath(g, p) && i < j <= |p|
    ensures IsPath(g, p[i..j])
  {
    forall k | 0 <= k < |p[i..j]| - 1 ensures EdgeAt(g, p[i..j], k) {
      assert EdgeAt(g, p, i + k);
    }
  }

  lemma LastEdge<T(!new)>(g: map<T, set<T>>, p: seq<T>)
    requires IsPath(g, p) && |p| > 1
    ensures HasEdge(g, p[|p| - 2], p[|p| - 1])
  {
    assert EdgeAt(g, p, |p| - 2);
  }

  lemma TailPath<T(!new)>(g: map<T, set<T>>, p: seq<T>)
    requires IsPath(g, p) && |p| > 1
    ensures IsPath(g, p[1..])
  {
    SlicePath(g, p, 1, |p|);
    assert p[1..] == p[1..|p|];
  }

  /** Two paths sharing an end vertex are one path. */
  lemma JoinPaths<T(!new)>(g: map<T, set<T>>, p: seq<T>, q: seq<T>)
    requires IsPath(g, p) && IsPath(g, q) && p[|p| - 1] == q[0]
    ensures PathFromTo(g, p + q[1..], p[0], q[|q| - 1])
  {
    var r := p + q[1..];
    forall k | 0 <= k < |r| - 1 ensures EdgeAt(g, r, k) {
      if k < |p| - 1 {
        assert EdgeAt(g, p, k);
      } else {
        assert EdgeAt(g, q, k - |p| + 1);
      }
    }
  }

  lemma EdgePath<T(!new)>(g: map<T, set<T>>, a: T, b: T)
    requires HasEdge(g, a, b)
    ensures IsPath(g, [a, b]) && Reaches(g, a, b)
  {
    assert PathFromTo(g, [a, b], a, b);
  }

  lemma ReachesRefl<T(!new)>(g: map<T, set<T>>, a: T)
    ensures Reaches(g, a, a)
  {
    assert PathFromTo(g, [a], a, a);
  }

  lemma ReachesTrans<T(!new)>(g: map<T, set<T>>, a: T, b: T, c: T)
    requires Reaches(g, a, b) && Reaches(g, b, c)
    ensures Reaches(g, a, c)
  {
    var p :| PathFromTo(g, p, a, b);
    var q :| PathFromTo(g, q, b, c);
    JoinPaths(g, p, q);
  }

  lemma ReachesStep<T(!new)>(g: map<T, set<T>>, a: T, b: T, c: T)
    requires Reaches(g, a, b) && HasEdge(g, b, c)
    ensures Reaches(g, a, c)
  {
    EdgePath(g, b, c);
    ReachesTrans(g, a, b, c);
  }

  /** A path never leaves a set that its edges never leave. */
  lemma {:induction false} PathStays<T(!new)>(g: map<T, set<T>>, s: set<T>, p: seq<T>)
    requires IsPath(g, p) && p[0] in s
    requires forall x, y :: x in s && HasEdge(g, x, y) ==> y in s
    ensures forall i :: 0 <= i < |p| ==> p[i] in s
  {
    if |p| > 1 {
      assert EdgeAt(g, p, 0);
      TailPath(g, p);
      PathStays(g, s, p[1..]);
      forall i | 0 <= i < |p| ensures p[i] in s {
        if i > 0 { assert p[i] == p[1..][i - 1]; }
      }
    }
  }

  /** Paths survive when edges are only added. */
  lemma PathGrows<T(!new)>(g: map<T, set<T>>, h: map<T, set<T>>, p: seq<T>)
    requires IsPath(g, p)
    requires forall x, y :: HasEdge(g, x, y) ==> HasEdge(h, x, y)
    ensures IsPath(h, p)
  {
    forall i | 0 <= i < |p| - 1 ensures EdgeAt(h, p, i) {
      assert EdgeAt(g, p, i);
    }
  }

  lemma SubgraphAcyclic<T(!new)>(g: map<T, set<T>>, h: map<T, set<T>>)
    requires Acyclic(h)
    requires forall x, y :: HasEdge(g, x, y) ==> HasEdge(h, x, y)
    ensures Acyclic(g)
  {
    forall c: seq<T> | IsCycle(g, c) ensures false {
      PathGrows(g, h, c);
      assert IsCycle(h, c);
    }
  }

  // ---- cycles ----

  /** A walk that visits a vertex twice contains a cycle. */
  lemma RepeatIsCycle<T(!new)>(g: map<T, set<T>>, p: seq<T>, i: nat, j: nat)
    requires IsPath(g, p) && i < j < |p| && p[i] == p[j]
    ensures IsCycle(g, p[i..j + 1])
  {
    SlicePath(g, p, i, j + 1);
  }

  lemma {:induction false} SubsetSize<T>(a: set<T>, b: set<T>)
    requires a <= b
    ensures |a| <= |b|
  {
    if x :| x in a {
      SubsetSize(a - {x}, b - {x});
    }
  }

  /** More places than values: some value repeats. */
  lemma {:induction false} Pigeonhole<T(!new)>(p: seq<T>, s: set<T>) returns (i: nat, j: nat)
    requires |p| > |s| && forall k :: 0 <= k < |p| ==> p[k] in s
    ensures i < j < |p| && p[i] == p[j]
    decreases |p|
  {
    var n := |p| - 1;
    if k :| 0 <= k < n && p[k] == p[n] {
      i, j := k, n;
    } else {
      i, j := Pigeonhole(p[..n], s - {p[n]});
    }
  }

  ghost predicate PredIn<T(!new)>(g: map<T, set<T>>, s: set<T>, x: T) {
    exists y :: y in s && HasEdge(g, y, x)
  }

  /** If every member of s has a predecessor in s, one can walk back from v for ever. */
  lemma {:induction false} WalkBack<T(!new)>(g: map<T, set<T>>, s: set<T>, v: T, n: nat) returns (p: seq<T>)
    requires v in s && forall x :: x in s ==> PredIn(g, s, x)
    ensures |p| == n + 1 && PathFromTo(g, p, p[0], v)
    ensures forall k :: 0 <= k < |p| ==> p[k] in s
  {
    p := [v];
    if n > 0 {
      var q := WalkBack(g, s, v, n - 1);
      assert PredIn(g, s, q[0]);
      var y :| y in s && HasEdge(g, y, q[0]);
      EdgePath(g, y, q[0]);
      JoinPaths(g, [y, q[0]], q);
      p := [y] + q;
      assert p == [y, q[0]] + q[1..];
    }
  }

  lemma CycleInGraph<T(!new)>(g: map<T, set<T>>, c: seq<T>)
    requires IsCycle(g, c)
    ensures c[0] in g && HasEdge(g, c[0], c[1])
  {
    assert EdgeAt(g, c, 0);
  }

  ghost predicate FromCycle<T(!new)>(g: map<T, set<T>>, v: T) {
    exists c: seq<T> :: IsCycle(g, c) && Reaches(g, c[0], v)
  }

  /** In a finite set where everyone has a predecessor, everyone is downstream of a cycle. */
  lemma StuckFromCycle<T(!new)>(g: map<T, set<T>>, s: set<T>, v: T)
    requires v in s && forall x :: x in s ==> PredIn(g, s, x)
    ensures FromCycle(g, v)
  {
    var p := WalkBack(g, s, v, |s|);
    var i, j := Pigeonhole(p, s);
    RepeatIsCycle(g, p, i, j);
    SlicePath(g, p, i, |p|);
    hide IsPath, PredIn;
    assert p[i..] == p[i..|p|];
    assert PathFromTo(g, p[i..], p[i], v);
    assert IsCycle(g, p[i..j + 1]) && Reaches(g, p[i..j + 1][0], v);
  }

  /** A non-empty set of vertices of an acyclic graph has a member without predecessor in it. */
  lemma MinimalMember<T(!new)>(g: map<T, set<T>>, s: set<T>) returns (v: T)
    requires Acyclic(g) && s != {}
    ensures v in s && forall y :: y in s ==> !HasEdge(g, y, v)
  {
    if forall x :: x in s ==> PredIn(g, s, x) {
      v :| v in s;
      StuckFromCycle(g, s, v);
      assert false;
    } else {
      v :| v in s && !PredIn(g, s, v);
    }
  }

  /** Turned around at any of its edges, a cycle is a path from the edge's end to its start. */
  lemma CycleAround<T(!new)>(g: map<T, set<T>>, c: seq<T>, i: nat) returns (p: seq<T>)
    requires IsCycle(g, c) && i < |c| - 1
    ensures PathFromTo(g, p, c[i + 1], c[i])
  {
    SlicePath(g, c, i + 1, |c|);
    SlicePath(g, c, 0, i + 1);
    assert c[i + 1..] == c[i + 1..|c|] && c[..i + 1] == c[0..i + 1];
    JoinPaths(g, c[i + 1..], c[..i + 1]);
    p := c[i + 1..] + c[..i + 1][1..];
  }

  /** The incremental cycle check is exact: a new edge keeps the graph acyclic if and only if
      its end does not already reach its start. */
  lemma EdgeKeepsAcyclic<T(!new)>(g: map<T, set<T>>, a: T, b: T)
    requires Closed(g) && Acyclic(g) && a in g && b in g
    ensures Acyclic(WithEdge(g, a, b)) <==> !Reaches(g, b, a)
  {
    var h := WithEdge(g, a, b);
    assert forall x, y :: HasEdge(h, x, y) <==> HasEdge(g, x, y) || (x == a && y == b);
    if Reaches(g, b, a) {
      var p :| PathFromTo(g, p, b, a);
      PathGrows(g, h, p);
      EdgePath(h, a, b);
      JoinPaths(h, [a, b], p);
      assert IsCycle(h, [a, b] + p[1..]);
    } else {
      var s := set x | x in g && Reaches(g, b, x);
      forall x, y | x in s && HasEdge(h, x, y) ensures y in s {
        ReachesStep(g, b, x, y);
      }
      ReachesRefl(g, b);
      forall c: seq<T> | IsCycle(h, c) ensures false {
        if i :| 0 <= i < |c| - 1 && c[i] == a && c[i + 1] == b {
          var p := CycleAround(h, c, i);
          PathStays(h, s, p);
        } else {
          forall i | 0 <= i < |c| - 1 ensures EdgeAt(g, c, i) {
            assert EdgeAt(h, c, i);
          }
          assert IsCycle(g, c);
        }
      }
    }
  }

  // ---- converse ----

  lemma ConverseEdges<T(!new)>(g: map<T, set<T>>)
    requires Closed(g)
    ensures forall x, y :: HasEdge(Converse(g), x, y) <==> HasEdge(g, y, x)
    ensures Closed(Converse(g)) && Converse(Converse(g)) == g
  {
    var h := Converse(g);
    assert Closed(h);
    forall v | v in g ensures Converse(h)[v] == g[v] {
    }
  }

  function Reversed<T>(p: seq<T>): seq<T> {
    seq(|p|, i requires 0 <= i < |p| => p[|p| - 1 - i])
  }

  lemma ReversedPath<T(!new)>(g: map<T, set<T>>, h: map<T, set<T>>, p: seq<T>)
    requires IsPath(g, p)
    requires forall x, y :: HasEdge(g, x, y) ==> HasEdge(h, y, x)
    ensures PathFromTo(h, Reversed(p), p[|p| - 1], p[0])
  {
    var r := Reversed(p);
    forall i | 0 <= i < |r| - 1 ensures EdgeAt(h, r, i) {
      assert EdgeAt(g, p, |p| - 2 - i);
    }
  }

  lemma ConverseAcyclic<T(!new)>(g: map<T, set<T>>)
    requires Closed(g) && Acyclic(g)
    ensures Acyclic(Converse(g))
  {
    ConverseEdges(g);
    forall c: seq<T> | IsCycle(Converse(g), c) ensures false {
      ReversedPath(Converse(g), g, c);
      assert IsCycle(g, Reversed(c));
    }
  }

  /** A non-empty set of vertices of an acyclic graph has a member without successor in it. */
  lemma MaximalMember<T(!new)>(g: map<T, set<T>>, s: set<T>) returns (v: T)
    requires Closed(g) && Acyclic(g) && s != {}
    ensures v in s && forall y :: y in s ==> !HasEdge(g, v, y)
  {
    ConverseEdges(g);
    ConverseAcyclic(g);
    v := MinimalMember(Converse(g), s);
    forall y | y in s ensures !HasEdge(g, v, y) {
      assert !HasEdge(Converse(g), y, v);
    }
  }

  /** Turning the edges of an acyclic graph around one by one never closes a cycle. */
  lemma ConverseEdgeFits<T(!new)>(g: map<T, set<T>>, r: map<T, set<T>>, parent: T, child: T)
    requires Sound(g) && HasEdge(g, parent, child)
    requires forall x, y :: HasEdge(r, x, y) ==> HasEdge(g, y, x)
    ensures child != parent && !Reaches(r, parent, child)
  {
    NoSelfEdge(g, parent);
    if Reaches(r, parent, child) {
      var p :| PathFromTo(r, p, parent, child);
      ReversedPath(r, g, p);
      EdgePath(g, parent, child);
      JoinPaths(g, [parent, child], Reversed(p));
      assert IsCycle(g, [parent, child] + Reversed(p)[1..]);
    }
  }

  /** Reversal swaps the degrees. */
  lemma ConverseDegrees<T(!new)>(g: map<T, set<T>>, ind: map<T, int>, outd: map<T, int>)
    requires Closed(g) && ExactDegrees(g, ind, outd)
    ensures ExactDegrees(Converse(g), outd, ind)
  {
    var h := Converse(g);
    forall v | v in h ensures ExactAt(h, outd, ind, v) {
      assert ExactAt(g, ind, outd, v);
      assert h[v] == Preds(g, v) && Preds(h, v) == g[v];
    }
  }

  lemma DegreesUnique<T(!new)>(g: map<T, set<T>>, ind: map<T, int>, outd: map<T, int>, ind': map<T, int>, outd': map<T, int>)
    requires ExactDegrees(g, ind, outd) && ExactDegrees(g, ind', outd')
    ensures ind == ind' && outd == outd'
  {
    forall v | v in g ensures ind[v] == ind'[v] && outd[v] == outd'[v] {
      assert ExactAt(g, ind, outd, v) && ExactAt(g, ind', outd', v);
    }
  }

  /** A vertex that is not linked to is never reached from elsewhere: what a search in the graph
      with the edge (a, b) already added says about the graph without it. */
  lemma SearchDecides<T(!new)>(g: map<T, set<T>>, a: T, b: T, path: seq<T>, found: bool)
    requires Sound(g) && a in g && b in g && a != b
    requires found ==> PathFromTo(WithEdge(g, a, b), path, b, a)
    requires !found ==> forall p: seq<T> :: PathFromTo(WithEdge(g, a, b), p, b, a) ==> |p| < 2
    ensures found <==> Reaches(g, b, a)
    ensures Acyclic(WithEdge(g, a, b)) <==> !found
    ensures found ==> IsCycle(WithEdge(g, a, b), [a] + path)
  {
    var h := WithEdge(g, a, b);
    EdgeKeepsAcyclic(g, a, b);
    if found {
      EdgePath(h, a, b);
      JoinPaths(h, [a, b], path);
      assert [a] + path == [a, b] + path[1..];
      assert IsCycle(h, [a] + path);
    } else if Reaches(g, b, a) {
      var p :| PathFromTo(g, p, b, a);
      assert |p| < 2 ==> a == b;
      PathGrows(g, h, p);
    }
  }

  // ---- topological orders ----

  /** Each vertex is listed after all its out-neighbours. */
  ghost predicate ChildrenFirst<T>(g: map<T, set<T>>, order: seq<T>) {
    forall i :: 0 <= i < |order| ==> order[i] in g && forall y :: y in g[order[i]] ==> y in order[..i]
  }

  ghost predicate Distinct<T>(s: seq<T>) {
    forall i, j :: 0 <= i < j < |s| ==> s[i] != s[j]
  }

  ghost predicate IsTopologicalOrder<T>(g: map<T, set<T>>, order: seq<T>) {
    Distinct(order) && (set x | x in order) == g.Keys && ChildrenFirst(g, order)
  }

  lemma {:induction false} PathDescends<T(!new)>(g: map<T, set<T>>, order: seq<T>, p: seq<T>, i: nat) returns (j: nat)
    requires ChildrenFirst(g, order) && Distinct(order) && IsPath(g, p)
    requires i < |order| && order[i] == p[0]
    ensures j <= i && order[j] == p[|p| - 1] && (|p| >= 2 ==> j < i)
    decreases |p|
  {
    j := i;
    if |p| >= 2 {
      assert EdgeAt(g, p, 0);
      var k :| 0 <= k < i && order[k] == p[1];
      TailPath(g, p);
      j := PathDescends(g, order, p[1..], k);
    }
  }

  lemma TopologicalIsAcyclic<T(!new)>(g: map<T, set<T>>, order: seq<T>)
    requires IsTopologicalOrder(g, order)
    ensures Acyclic(g)
  {
    forall c: seq<T> | IsCycle(g, c) ensures false {
      assert EdgeAt(g, c, 0);
      assert c[0] in (set x | x in order);
      var i :| 0 <= i < |order| && order[i] == c[0];
      var j := PathDescends(g, order, c, i);
    }
  }

  // ---- changing a graph, with its in-degrees ----

  ghost predicate Sound<T(!new)>(g: map<T, set<T>>) {
    Closed(g) && Acyclic(g)
  }

  ghost predicate ExactAt<T(!new)>(g: map<T, set<T>>, ind: map<T, int>, outd: map<T, int>, v: T) {
    v in g && v in ind && v in outd && ind[v] == |Preds(g, v)| && outd[v] == |g[v]|
  }

  /** ind and outd hold the true number of edges into and out of each vertex. */
  ghost predicate ExactDegrees<T(!new)>(g: map<T, set<T>>, ind: map<T, int>, outd: map<T, int>) {
    ind.Keys == g.Keys && outd.Keys == g.Keys && forall v {:trigger ExactAt(g, ind, outd, v)} :: v in g ==> ExactAt(g, ind, outd, v)
  }

  lemma VertexAdded<T(!new)>(g: map<T, set<T>>, ind: map<T, int>, outd: map<T, int>, v: T)
    requires Sound(g) && v !in g && ExactDegrees(g, ind, outd)
    ensures Sound(WithVertex(g, v)) && ExactDegrees(WithVertex(g, v), ind[v := 0], outd[v := 0])
  {
    var h := WithVertex(g, v);
    assert forall x, y :: HasEdge(h, x, y) ==> HasEdge(g, x, y);
    SubgraphAcyclic(h, g);
    forall x | x in h ensures ExactAt(h, ind[v := 0], outd[v := 0], x) {
      if x == v {
        assert Preds(h, v) == {};
      } else {
        assert ExactAt(g, ind, outd, x);
        assert Preds(h, x) == Preds(g, x);
      }
    }
  }

  lemma EdgeAdded<T(!new)>(g: map<T, set<T>>, ind: map<T, int>, outd: map<T, int>, a: T, b: T)
    requires Closed(g) && ExactDegrees(g, ind, outd) && a in g && b in g && b !in g[a]
    ensures Closed(WithEdge(g, a, b))
    ensures ExactDegrees(WithEdge(g, a, b), ind[b := ind[b] + 1], outd[a := outd[a] + 1])
  {
    forall v | v in g ensures ExactAt(WithEdge(g, a, b), ind[b := ind[b] + 1], outd[a := outd[a] + 1], v) {
      assert ExactAt(g, ind, outd, v);
      PredsAdded(g, a, b, v);
    }
  }

  lemma PredsAdded<T(!new)>(g: map<T, set<T>>, a: T, b: T, v: T)
    requires a in g && b !in g[a]
    ensures |Preds(WithEdge(g, a, b), v)| == |Preds(g, v)| + if v == b then 1 else 0
  {
    var h := WithEdge(g, a, b);
    if v == b {
      assert Preds(h, b) == Preds(g, b) + {a};
    } else {
      assert Preds(h, v) == Preds(g, v);
    }
  }

  function WithoutEdge<T>(g: map<T, set<T>>, a: T, b: T): map<T, set<T>>
    requires a in g
  {
    g[a := g[a] - {b}]
  }

  lemma EdgeRemoved<T(!new)>(g: map<T, set<T>>, ind: map<T, int>, outd: map<T, int>, a: T, b: T)
    requires Closed(g) && ExactDegrees(g, ind, outd) && a in g && b in g[a]
    ensures Closed(WithoutEdge(g, a, b)) && (Acyclic(g) ==> Acyclic(WithoutEdge(g, a, b)))
    ensures ExactDegrees(WithoutEdge(g, a, b), ind[b := ind[b] - 1], outd[a := outd[a] - 1])
  {
    var h := WithoutEdge(g, a, b);
    if Acyclic(g) {
      assert forall x, y :: HasEdge(h, x, y) ==> HasEdge(g, x, y);
      SubgraphAcyclic(h, g);
    }
    assert h[a] + {b} == g[a];
    assert WithEdge(h, a, b) == g;
    forall v | v in g ensures ExactAt(h, ind[b := ind[b] - 1], outd[a := outd[a] - 1], v) {
      assert ExactAt(g, ind, outd, v);
      PredsAdded(h, a, b, v);
    }
  }

  lemma NoSelfEdge<T(!new)>(g: map<T, set<T>>, v: T)
    requires Acyclic(g)
    ensures !HasEdge(g, v, v)
  {
    if HasEdge(g, v, v) {
      EdgePath(g, v, v);
      assert IsCycle(g, [v, v]);
    }
  }

  /** Removing a vertex left without outgoing edges keeps a graph closed, and its counts exact,
      exactly if no edge led to it. */
  lemma VertexRemoved<T(!new)>(g: map<T, set<T>>, ind: map<T, int>, outd: map<T, int>, v: T)
    requires Sound(g) && ExactDegrees(g, ind, outd) && v in g && g[v] == {}
    ensures Acyclic(g - {v})
    ensures Closed(g - {v}) <==> ind[v] == 0
    ensures ind[v] == 0 ==> ExactDegrees(g - {v}, ind - {v}, outd - {v})
  {
    var h := g - {v};
    assert forall x, y :: HasEdge(h, x, y) ==> HasEdge(g, x, y);
    SubgraphAcyclic(h, g);
    assert ExactAt(g, ind, outd, v);
    if x :| x in Preds(g, v) {
      assert x in h && v in h[x];
    } else {
      assert Preds(g, v) == {};
      forall x | x in h ensures ExactAt(h, ind - {v}, outd - {v}, x) {
        assert ExactAt(g, ind, outd, x);
        assert Preds(h, x) == Preds(g, x);
      }
    }
  }
}
