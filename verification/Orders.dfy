/** Ordered keys: what sorting the keys of a map yields. */
module Orders {
  import opened Graphs

  ghost predicate TotalOrder<T(!new)>(leq: (T, T) -> bool) {
    && (forall a, b :: leq(a, b) || leq(b, a))
    && (forall a, b :: leq(a, b) && leq(b, a) ==> a == b)
    && (forall a, b, c :: leq(a, b) && leq(b, c) ==> leq(a, c))
  }

  /** q lists the members of s once each, in ascending order. */
  ghost predicate IsSortedList<T(!new)>(leq: (T, T) -> bool, q: seq<T>, s: set<T>) {
    && Distinct(q)
    && (forall i, j :: 0 <= i < j < |q| ==> leq(q[i], q[j]))
    && (forall x :: x in s <==> x in q)
  }

  method Least<T(==, !new)>(leq: (T, T) -> bool, s: set<T>) returns (m: T)
    requires TotalOrder(leq) && s != {}
    ensures m in s && forall x :: x in s ==> leq(m, x)
  {
    m :| m in s;
    var todo := s - {m};
    while todo != {}
      invariant m in s && todo <= s
      invariant forall x :: x in s - todo ==> leq(m, x)
      decreases todo
    {
      var x :| x in todo;
      if !leq(m, x) {
        m := x;
      }
      todo := todo - {x};
    }
  }

  lemma LeastExists<T(!new)>(leq: (T, T) -> bool, s: set<T>) returns (m: T)
    requires TotalOrder(leq) && s != {}
    ensures m in s && forall x :: x in s ==> leq(m, x)
  {
    m :| m in s;
    if s != {m} {
      var n := LeastExists(leq, s - {m});
      if !leq(m, n) { m := n; }
    }
  }

  lemma {:induction false} SortedExists<T(!new)>(leq: (T, T) -> bool, s: set<T>) returns (q: seq<T>)
    requires TotalOrder(leq)
    ensures IsSortedList(leq, q, s)
    decreases s
  {
    q := [];
    if s != {} {
      var m := LeastExists(leq, s);
      var r := SortedExists(leq, s - {m});
      q := [m] + r;
    }
  }

  lemma NothingListed<T(!new)>(leq: (T, T) -> bool, q: seq<T>, s: set<T>)
    requires IsSortedList(leq, q, s)
    ensures q == [] <==> s == {}
  {
    if q != [] { assert q[0] in s; }
    if x :| x in s { assert x in q; }
  }

  lemma {:induction false} SortedUnique<T(!new)>(leq: (T, T) -> bool, q: seq<T>, r: seq<T>, s: set<T>)
    requires TotalOrder(leq) && IsSortedList(leq, q, s) && IsSortedList(leq, r, s)
    ensures q == r
    decreases s
  {
    if s == {} {
      NothingListed(leq, q, s);
      NothingListed(leq, r, s);
    } else {
      var m :| m in s;
      assert m in q && m in r;
      assert q[0] in s && r[0] in s;
      assert q[0] in r && r[0] in q;
      assert leq(q[0], r[0]) && leq(r[0], q[0]);
      var t := s - {q[0]};
      TailSorted(leq, q, s);
      TailSorted(leq, r, s);
      SortedUnique(leq, q[1..], r[1..], t);
      assert q == [q[0]] + q[1..] && r == [r[0]] + r[1..];
    }
  }

  lemma TailSorted<T(!new)>(leq: (T, T) -> bool, q: seq<T>, s: set<T>)
    requires IsSortedList(leq, q, s) && q != []
    ensures IsSortedList(leq, q[1..], s - {q[0]})
  {
    forall x | x in s - {q[0]} ensures x in q[1..] {
      assert x in q;
      var i :| 0 <= i < |q| && q[i] == x;
      assert q[1..][i - 1] == x;
    }
    forall x | x in q[1..] ensures x in s - {q[0]} {
      var i :| 0 <= i < |q[1..]| && q[1..][i] == x;
      assert q[i + 1] == x;
    }
  }

  /** The ascending list of s: the one sequence IsSortedList accepts. */
  ghost function Sorted<T(!new)>(leq: (T, T) -> bool, s: set<T>): seq<T>
    requires TotalOrder(leq)
  {
    assert exists q: seq<T> :: IsSortedList(leq, q, s) by {
      var q := SortedExists(leq, s);
    }
    var q: seq<T> :| IsSortedList(leq, q, s);
    q
  }

  lemma SortedIs<T(!new)>(leq: (T, T) -> bool, s: set<T>, q: seq<T>)
    requires TotalOrder(leq)
    ensures q == Sorted(leq, s) <==> IsSortedList(leq, q, s)
  {
    var r := Sorted(leq, s);
    assert exists q: seq<T> :: IsSortedList(leq, q, s) by {
      var q := SortedExists(leq, s);
    }
    assert IsSortedList(leq, r, s);
    if IsSortedList(leq, q, s) { SortedUnique(leq, q, r, s); }
  }

  lemma SortedLists<T(!new)>(leq: (T, T) -> bool, s: set<T>)
    requires TotalOrder(leq)
    ensures forall x :: x in s <==> x in Sorted(leq, s)
    ensures |Sorted(leq, s)| == |s|
  {
    SortedIs(leq, s, Sorted(leq, s));
    ListSize(leq, Sorted(leq, s), s);
  }

  lemma {:induction false} ListSize<T(!new)>(leq: (T, T) -> bool, q: seq<T>, s: set<T>)
    requires IsSortedList(leq, q, s)
    ensures |q| == |s|
  {
    NothingListed(leq, q, s);
    if q != [] {
      assert q[0] in q;
      TailSorted(leq, q, s);
      ListSize(leq, q[1..], s - {q[0]});
    }
  }

  /** slices.Sorted over the keys of a map. */
  method SortedKeys<T(==, !new)>(leq: (T, T) -> bool, s: set<T>) returns (q: seq<T>)
    requires TotalOrder(leq)
    ensures q == Sorted(leq, s)
    ensures forall x :: x in s <==> x in q
  {
    q := [];
    var todo := s;
    while todo != {}
      invariant todo <= s
      invariant IsSortedList(leq, q, s - todo)
      invariant forall x, y :: x in q && y in todo ==> leq(x, y)
      decreases todo
    {
      var m := Least(leq, todo);
      assert forall x :: x in q ==> x != m && leq(x, m);
      q := q + [m];
      todo := todo - {m};
      assert forall x :: x in s - todo <==> x in q;
    }
    assert s - todo == s;
    SortedIs(leq, s, q);
  }
}
