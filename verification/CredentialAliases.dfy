/** Requests to the credential graph that print like a vertex without being its identity, on the order
    and the printing of identities that the code uses. */
module CredentialAliases {
  import opened Graphs
  import opened GraphState
  import opened Orders
  import I = Identities
  import opened IdentityHashes
  import opened Credentials
  import CredentialRuns

  /** Vertices are named by what identities print to. */
  ghost predicate NamesPrint(c: Config) {
    TotalOrder(StringLeq) && forall i {:trigger c.name(i)} :: c.name(i) == I.Printed(StringLeq, i)
  }

  /** Well formed requests are harmless where the identities of all vertices are well formed. */
  lemma WellFormedHarmless(c: Config, s: Vertices, requests: iset<Identity>)
    requires NamesPrint(c) && Fit(c, s)
    requires forall v {:trigger IdentityAt(s, v)} :: v in s && IdentityAt(s, v).Some? ==> I.WellFormed(IdentityAt(s, v).value)
    requires forall a {:trigger a in requests} :: a in requests ==> I.WellFormed(a)
    ensures CredentialRuns.Harmless(c, s, requests)
  {
    hide TotalOrder, I.Printed, I.WellFormed, Settled;
    forall a {:trigger a in requests} | a in requests ensures !Alias(c, s, c.name(a), a) {
      if Alias(c, s, c.name(a), a) {
        NamedAt(c, s, c.name(a));
        I.PrintedInjective(StringLeq, a, IdentityAt(s, c.name(a)).value);
      }
    }
  }

  // ---- a request that is not ----

  function Consumer(): Identity {
    map["hostname" := "h", "path" := "p", "port" := "443", "type" := "T"]
  }

  /** The path looks like the path and the port of the consumer. */
  function Lookalike(): Identity {
    map["hostname" := "h", "path" := "p,port=443", "type" := "T"]
  }

  function Source(): Identity {
    map["type" := "S"]
  }

  lemma KeysSorted(i: Identity, keys: seq<string>)
    requires i.Keys == set k | k in keys
    requires forall k, l :: 0 <= k < l < |keys| ==> StringLeq(keys[k], keys[l]) && keys[k] != keys[l]
    ensures TotalOrder(StringLeq) && Sorted(StringLeq, i.Keys) == keys
  {
    hide StringLeq;
    StringsOrdered();
    hide TotalOrder;
    assert IsSortedList(StringLeq, keys, i.Keys);
    SortedIs(StringLeq, i.Keys, keys);
  }

  lemma ConsumerKeys()
    ensures TotalOrder(StringLeq)
    ensures Sorted(StringLeq, Consumer().Keys) == ["hostname", "path", "port", "type"]
    ensures Sorted(StringLeq, Lookalike().Keys) == ["hostname", "path", "type"]
    ensures Sorted(StringLeq, Source().Keys) == ["type"]
  {
    assert StringLeq("hostname", "path") && StringLeq("path", "port") && StringLeq("port", "type");
    assert StringLeq("hostname", "port") && StringLeq("hostname", "type") && StringLeq("path", "type");
    assert "hostname"[0] != "path"[0] && "hostname"[0] != "type"[0] && "path"[0] != "type"[0] && "path"[1] != "port"[1];
    hide StringLeq;
    KeysSorted(Consumer(), ["hostname", "path", "port", "type"]);
    KeysSorted(Lookalike(), ["hostname", "path", "type"]);
    KeysSorted(Source(), ["type"]);
  }

  lemma ConsumerEntries()
    ensures I.Entries(Consumer(), ["hostname", "path", "port", "type"]) == ["hostname=h", "path=p", "port=443", "type=T"]
    ensures I.Entries(Lookalike(), ["hostname", "path", "type"]) == ["hostname=h", "path=p,port=443", "type=T"]
    ensures I.Entries(Source(), ["type"]) == ["type=S"]
  {
    var i, o := Consumer(), Lookalike();
    assert I.Entry(i, "hostname") == "hostname=h" && I.Entry(i, "path") == "path=p" && I.Entry(i, "port") == "port=443" && I.Entry(i, "type") == "type=T";
    assert I.Entry(o, "hostname") == "hostname=h" && I.Entry(o, "path") == "path=p,port=443" && I.Entry(o, "type") == "type=T";
    assert I.Entry(Source(), "type") == "type=S";
  }

  /** They print alike, and not like the source. */
  lemma PrintAlike()
    ensures TotalOrder(StringLeq) && I.Printed(StringLeq, Lookalike()) == I.Printed(StringLeq, Consumer()) != I.Printed(StringLeq, Source())
  {
    hide StringLeq, TotalOrder, I.Join, I.Entries;
    ConsumerKeys();
    ConsumerEntries();
    JoinedAlike(["hostname=h"], "path=p", "port=443", ["type=T"]);
    assert "path=p" + "," + "port=443" == "path=p,port=443";
    assert ["hostname=h"] + ["path=p", "port=443"] + ["type=T"] == ["hostname=h", "path=p", "port=443", "type=T"];
    assert ["hostname=h"] + ["path=p,port=443"] + ["type=T"] == ["hostname=h", "path=p,port=443", "type=T"];
    JoinFirst("hostname=h", ["path=p", "port=443", "type=T"]);
    assert ["hostname=h"] + ["path=p", "port=443", "type=T"] == ["hostname=h", "path=p", "port=443", "type=T"];
    JoinFirst("type=S", []);
    assert ["type=S"] + [] == ["type=S"];
    assert "hostname=h"[0] != "type=S"[0];
  }

  // ---- a graph in which it changes what the consumer gets ----

  ghost function Print(i: Identity): string {
    if TotalOrder(StringLeq) then I.Printed(StringLeq, i) else ""
  }

  ghost function Printing(c: Config): Config {
    c.(name := (i: Identity) => Print(i))
  }

  /** The consumer gets its credentials from the source, which holds some. */
  ghost function ConsumerGraph(): Vertices {
    map[Print(Consumer()) := Row(map[identityKey := IdentityIs(Consumer())], map[Print(Source()) := map[kindKey := Kind(relevant)]], 0, 1),
        Print(Source()) := Row(map[identityKey := IdentityIs(Source()), credentialsKey := CredentialsAre(Some(Direct(map[])))], map[], 1, 0)]
  }

  lemma ConsumerGraphFits(c: Config)
    requires Lists(c)
    ensures Fit(Printing(c), ConsumerGraph())
  {
    hide Print;
    PrintsApart();
    KeysDiffer();
    var s, v, e := ConsumerGraph(), Print(Consumer()), Print(Source());
    assert s[v].edges.Keys == {e} && s[e].edges.Keys == {};
    assert Adj(s) == map[v := {e}, e := {}];
    TwoAcyclic(v, e);
  }

  lemma PrintsApart()
    ensures Print(Lookalike()) == Print(Consumer()) != Print(Source())
  {
    hide TotalOrder, I.Printed;
    PrintAlike();
  }

  lemma TwoAcyclic(v: string, e: string)
    requires v != e
    ensures Acyclic(map[v := {e}, e := {}])
  {
    var g, order := map[v := {e}, e := {}], [e, v];
    assert order[..1] == [e] && order[..0] == [];
    TopologicalIsAcyclic(g, order);
  }

  /** The request hits the consumer's vertex exactly and asks for the consumer's credentials with its
      own identity; its result is stored for the consumer, who gets it from then on. */
  lemma LookalikeChangesConsumer(c: Config)
    requires Lists(c)
    ensures var d, s, v := Printing(c), ConsumerGraph(), Print(Consumer());
      && Fit(d, s) && v in s && IdentityAt(s, v) == Some(Consumer()) && Alias(d, s, v, Lookalike()) && Found(d, s, Lookalike(), Some(v))
      && !AliasSteady(d, s, v, Lookalike(), Telling(Source(), Consumer(), Lookalike()))
      && !CredentialRuns.Harmless(d, s, iset{Lookalike()})
  {
    hide Print, Sound, AliasSteady, Telling;
    PrintsApart();
    KeysDiffer();
    ConsumerGraphFits(c);
    var d, s, v, e := Printing(c), ConsumerGraph(), Print(Consumer()), Print(Source());
    assert s[v].edges.Keys == {e} && !CyclicOnly(s, v, e) && CredentialsAt(s, v) == None;
    assert "port" in Consumer() && "port" !in Lookalike();
    TellingAlias(d, s, v, e, Lookalike());
    assert Lookalike() in iset{Lookalike()} && !Settled(s, v);
  }
}
