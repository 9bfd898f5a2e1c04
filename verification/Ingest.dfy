/** The first phase of reading a credential configuration (bindings/go/credentials/ingest.go): which
    credentials end up at which identity without a plugin, and which are left for the plugins. */
module Ingest {
  import opened Graphs

  /** A configured credential: without a type; of a type the scheme knows, valid or not; direct
      properties; or of a type only a plugin may know. */
  datatype Configured = Untyped | Known(typed: string) | KnownInvalid | Properties(properties: map<string, string>) | Other(raw: string)

  /** Identities are given by the ID of their vertex. */
  datatype Consumer = Consumer(identities: seq<string>, credentials: seq<Configured>)

  /** A credential resolved without a plugin. */
  datatype Resolved = Typed(typed: string) | Direct(properties: map<string, string>)

  predicate Faulty(c: Configured) {
    c.Untyped? || c.KnownInvalid?
  }

  // ---- one consumer ----

  function FirstTyped(creds: seq<Configured>): Option<string> {
    if creds == [] then None
    else match FirstTyped(creds[..|creds| - 1])
      case Some(t) => Some(t)
      case None => if creds[|creds| - 1].Known? then Some(creds[|creds| - 1].typed) else None
  }

  /** The union of the direct properties, later ones winning; None if there are none at all. */
  function MergedDirect(creds: seq<Configured>): Option<map<string, string>> {
    if creds == [] then None
    else
      var before, last := MergedDirect(creds[..|creds| - 1]), creds[|creds| - 1];
      if last.Properties? then Some((if before.Some? then before.value else map[]) + last.properties) else before
  }

  /** In order: what only plugins know, and every typed credential after the first. */
  function ForPlugins(creds: seq<Configured>): seq<Configured> {
    if creds == [] then []
    else
      var before, last := creds[..|creds| - 1], creds[|creds| - 1];
      ForPlugins(before) + if last.Other? || (last.Known? && FirstTyped(before).Some?) then [last] else []
  }

  function Contribution(creds: seq<Configured>): Option<Resolved> {
    match (FirstTyped(creds), MergedDirect(creds))
    case (Some(t), _) => Some(Typed(t))
    case (None, Some(d)) => Some(Direct(d))
    case _ => None
  }

  /** Nothing is lost silently but direct properties beside a typed credential: every other
      credential is the one the consumer contributes or reaches the plugins. */
  lemma {:induction false} NothingLost(creds: seq<Configured>, c: Configured)
    requires c in creds && !Faulty(c)
    ensures c in ForPlugins(creds) || c.Properties? || (c.Known? && FirstTyped(creds) == Some(c.typed))
  {
    var before, last := creds[..|creds| - 1], creds[|creds| - 1];
    assert creds == before + [last];
    if c in before { NothingLost(before, c); }
  }

  /** t is the first typed credential. */
  ghost predicate FirstKnown(creds: seq<Configured>, t: string) {
    exists i :: 0 <= i < |creds| && creds[i] == Known(t) && forall j :: 0 <= j < i ==> !creds[j].Known?
  }

  ghost predicate NoKnown(creds: seq<Configured>) {
    forall i :: 0 <= i < |creds| ==> !creds[i].Known?
  }

  predicate HasProperty(c: Configured, k: string) {
    c.Properties? && k in c.properties
  }

  /** x is the value of k in the last of the direct credentials that have it. */
  ghost predicate LastProperty(creds: seq<Configured>, k: string, x: string) {
    exists i :: 0 <= i < |creds| && HasProperty(creds[i], k) && creds[i].properties[k] == x && forall j :: i < j < |creds| ==> !HasProperty(creds[j], k)
  }

  ghost predicate SomeDirect(creds: seq<Configured>) {
    exists i :: 0 <= i < |creds| && creds[i].Properties?
  }

  /** What a consumer contributes: the first typed credential, or without any the direct properties of
      all others, each the last one given, if there are some. */
  ghost predicate ContributionIs(creds: seq<Configured>, r: Option<Resolved>) {
    match r
    case Some(Typed(t)) => FirstKnown(creds, t)
    case Some(Direct(m)) => NoKnown(creds) && SomeDirect(creds)
      && (forall k :: k in m <==> exists i :: 0 <= i < |creds| && HasProperty(creds[i], k)) && forall k :: k in m ==> LastProperty(creds, k, m[k])
    case None => NoKnown(creds) && !SomeDirect(creds)
  }

  /** Only a plugin may know it, or it is typed and not the first such. */
  ghost predicate ForPlugin(creds: seq<Configured>, i: nat)
    requires i < |creds|
  {
    creds[i].Other? || (creds[i].Known? && exists j :: 0 <= j < i && creds[j].Known?)
  }

  /** at lists in order all places for which this holds: those of rest, which is what is there. */
  ghost predicate Picks(creds: seq<Configured>, rest: seq<Configured>, at: seq<nat>) {
    && |at| == |rest| && (forall k, l :: 0 <= k < l < |at| ==> at[k] < at[l])
    && (forall k {:trigger at[k]} :: 0 <= k < |at| ==> at[k] < |creds| && rest[k] == creds[at[k]])
    && forall i: nat {:trigger ForPlugin(creds, i)} :: i < |creds| ==> (ForPlugin(creds, i) <==> i in at)
  }

  /** rest is in order what is left for the plugins. */
  ghost predicate RestIs(creds: seq<Configured>, rest: seq<Configured>) {
    exists at :: Picks(creds, rest, at)
  }

  lemma {:induction false} FirstTypedIs(creds: seq<Configured>)
    ensures match FirstTyped(creds) case Some(t) => FirstKnown(creds, t) case None => NoKnown(creds)
  {
    if creds != [] {
      var n := |creds| - 1;
      FirstTypedIs(creds[..n]);
      assert forall i :: 0 <= i < n ==> creds[..n][i] == creds[i];
      match FirstTyped(creds[..n])
      case Some(t) =>
        var i :| 0 <= i < n && creds[..n][i] == Known(t) && forall j :: 0 <= j < i ==> !creds[..n][j].Known?;
        assert creds[i] == Known(t);
      case None => if creds[n].Known? { assert creds[n] == Known(creds[n].typed); }
    }
  }

  lemma {:induction false} MergedDirectIs(creds: seq<Configured>)
    ensures MergedDirect(creds).Some? <==> SomeDirect(creds)
    ensures MergedDirect(creds).Some? ==> forall k :: k in MergedDirect(creds).value <==> exists i :: 0 <= i < |creds| && HasProperty(creds[i], k)
    ensures MergedDirect(creds).Some? ==> forall k :: k in MergedDirect(creds).value ==> LastProperty(creds, k, MergedDirect(creds).value[k])
  {
    hide LastProperty;
    if creds != [] {
      var n := |creds| - 1;
      MergedDirectIs(creds[..n]);
      assert forall i :: 0 <= i < n ==> creds[..n][i] == creds[i];
      var m := MergedDirect(creds);
      if m.Some? {
        forall k | k in m.value ensures LastProperty(creds, k, m.value[k]) { LastPropertyOf(creds, n, k, m.value[k]); }
      }
    }
  }

  lemma LastPropertyOf(creds: seq<Configured>, n: nat, k: string, x: string)
    requires |creds| == n + 1
    ensures LastProperty(creds, k, x) <==> if HasProperty(creds[n], k) then creds[n].properties[k] == x else LastProperty(creds[..n], k, x)
  {
    var before := creds[..n];
    assert forall i :: 0 <= i < n ==> before[i] == creds[i];
    if HasProperty(creds[n], k) {
      assert LastProperty(creds, k, x) ==> creds[n].properties[k] == x;
    } else if LastProperty(before, k, x) {
      var i :| 0 <= i < n && HasProperty(before[i], k) && before[i].properties[k] == x && forall j :: i < j < n ==> !HasProperty(before[j], k);
      assert HasProperty(creds[i], k);
    }
  }

  lemma ContributionOf(creds: seq<Configured>)
    ensures ContributionIs(creds, Contribution(creds))
  {
    hide FirstTyped, MergedDirect, LastProperty;
    FirstTypedIs(creds);
    MergedDirectIs(creds);
  }

  lemma {:induction false} ForPluginsIs(creds: seq<Configured>) returns (at: seq<nat>)
    ensures Picks(creds, ForPlugins(creds), at)
  {
    hide FirstTyped, Picks, ForPlugin;
    at := [];
    if creds == [] {
      NothingPicked();
    } else {
      var n: nat := |creds| - 1;
      var a := ForPluginsIs(creds[..n]);
      LaterKnown(creds, creds[..n]);
      LastForPlugin(creds, n);
      PicksMore(creds, n, ForPlugins(creds[..n]), a);
      at := if ForPlugin(creds, n) then a + [n] else a;
      assert ForPlugins(creds[..n]) + [] == ForPlugins(creds[..n]);
    }
  }

  lemma NothingPicked()
    ensures Picks([], [], [])
  {
  }

  lemma LastForPlugin(creds: seq<Configured>, n: nat)
    requires |creds| == n + 1
    ensures ForPlugin(creds, n) <==> creds[n].Other? || (creds[n].Known? && exists j :: 0 <= j < n && creds[j].Known?)
  {
  }

  lemma PicksMore(creds: seq<Configured>, n: nat, rest: seq<Configured>, a: seq<nat>)
    requires |creds| == n + 1 && Picks(creds[..n], rest, a)
    ensures ForPlugin(creds, n) ==> Picks(creds, rest + [creds[n]], a + [n])
    ensures !ForPlugin(creds, n) ==> Picks(creds, rest, a)
  {
    hide ForPlugin;
    assert forall k {:trigger a[k]} :: 0 <= k < |a| ==> a[k] < n && creds[..n][a[k]] == creds[a[k]];
    forall i: nat {:trigger ForPlugin(creds, i)} | i < n ensures ForPlugin(creds, i) <==> i in a { SamePlugin(creds, n, i); }
    assert forall i: nat :: i in a + [n] <==> i in a || i == n;
  }

  lemma SamePlugin(creds: seq<Configured>, n: nat, i: nat)
    requires i < n <= |creds|
    ensures ForPlugin(creds, i) <==> ForPlugin(creds[..n], i)
  {
    var before := creds[..n];
    assert forall j :: 0 <= j < n ==> before[j] == creds[j];
  }

  lemma LaterKnown(creds: seq<Configured>, before: seq<Configured>)
    requires creds != [] && before == creds[..|creds| - 1]
    ensures FirstTyped(before).Some? <==> exists j :: 0 <= j < |creds| - 1 && creds[j].Known?
  {
    hide FirstTyped;
    FirstTypedIs(before);
    assert forall i :: 0 <= i < |before| ==> before[i] == creds[i];
  }

  lemma RestOf(creds: seq<Configured>)
    ensures RestIs(creds, ForPlugins(creds))
  {
    hide Picks;
    var at := ForPluginsIs(creds);
  }

  method ExtractResolvable(creds: seq<Configured>) returns (ok: bool, resolved: Option<Resolved>, remaining: seq<Configured>)
    ensures ok <==> forall c :: c in creds ==> !Faulty(c)
    ensures ok ==> resolved == Contribution(creds) && remaining == ForPlugins(creds)
    ensures ok ==> ContributionIs(creds, resolved) && RestIs(creds, remaining)
  {
    hide ContributionIs, RestIs;
    ContributionOf(creds);
    RestOf(creds);
    var typed: Option<string> := None;
    var direct: Option<map<string, string>> := None;
    ok, resolved, remaining := true, None, [];
    for i := 0 to |creds|
      invariant ok && typed == FirstTyped(creds[..i]) && direct == MergedDirect(creds[..i]) && remaining == ForPlugins(creds[..i])
      invariant forall c :: c in creds[..i] ==> !Faulty(c)
    {
      assert creds[..i + 1][..i] == creds[..i] && creds[i] in creds;
      match creds[i] {
        case Untyped => return false, None, [];
        case KnownInvalid => return false, None, [];
        case Known(t) => if typed == None { typed := Some(t); } else { remaining := remaining + [creds[i]]; }
        case Properties(p) => direct := Some((if direct.Some? then direct.value else map[]) + p);
        case Other(_) => remaining := remaining + [creds[i]];
      }
    }
    assert creds[..|creds|] == creds;
    resolved := if typed.Some? then Some(Typed(typed.value)) else if direct.Some? then Some(Direct(direct.value)) else None;
  }

  // ---- all consumers ----

  /** The typed credential of the last consumer that names the node and contributes one. */
  function TypedAt(cs: seq<Consumer>, node: string): Option<string> {
    if cs == [] then None
    else
      var last := cs[|cs| - 1];
      match Contribution(last.credentials)
      case Some(Typed(t)) => if node in last.identities then Some(t) else TypedAt(cs[..|cs| - 1], node)
      case _ => TypedAt(cs[..|cs| - 1], node)
  }

  /** The union of the direct properties contributed to the node, in the order of the consumers. */
  function DirectAt(cs: seq<Consumer>, node: string): Option<map<string, string>> {
    if cs == [] then None
    else
      var last, before := cs[|cs| - 1], DirectAt(cs[..|cs| - 1], node);
      match Contribution(last.credentials)
      case Some(Direct(d)) => if node in last.identities then Some((if before.Some? then before.value else map[]) + d) else before
      case _ => before
  }

  function CredentialAt(cs: seq<Consumer>, node: string): Option<Resolved> {
    match (TypedAt(cs, node), DirectAt(cs, node))
    case (Some(t), _) => Some(Typed(t))
    case (None, Some(d)) => Some(Direct(d))
    case _ => None
  }

  function PluginConsumers(cs: seq<Consumer>): seq<Consumer> {
    if cs == [] then []
    else
      var last := cs[|cs| - 1];
      PluginConsumers(cs[..|cs| - 1]) + if ForPlugins(last.credentials) == [] then [] else [last.(credentials := ForPlugins(last.credentials))]
  }

  predicate Names(c: Consumer, node: string, t: string) {
    node in c.identities && Contribution(c.credentials) == Some(Typed(t))
  }

  predicate GivesDirect(c: Consumer, node: string, k: string) {
    node in c.identities && Contribution(c.credentials).Some? && Contribution(c.credentials).value.Direct? && k in Contribution(c.credentials).value.properties
  }

  /** The last consumer with a typed credential decides, wherever others with direct ones stand. */
  lemma {:induction false} LastTypedWins(cs: seq<Consumer>, node: string, t: string)
    ensures TypedAt(cs, node) == Some(t) <==>
      exists i :: 0 <= i < |cs| && Names(cs[i], node, t) && forall j, u :: i < j < |cs| ==> !Names(cs[j], node, u)
  {
    if cs != [] {
      var n := |cs| - 1;
      LastTypedWins(cs[..n], node, t);
      assert forall i :: 0 <= i < n ==> cs[..n][i] == cs[i];
      match Contribution(cs[n].credentials)
      case Some(Typed(u)) => assert Names(cs[n], node, u) <==> node in cs[n].identities;
      case _ =>
    }
  }

  /** Each direct property comes from the last consumer that contributes it to the node. */
  lemma {:induction false} LastPropertyWins(cs: seq<Consumer>, node: string, k: string)
    ensures (DirectAt(cs, node).Some? && k in DirectAt(cs, node).value) <==> exists i :: 0 <= i < |cs| && GivesDirect(cs[i], node, k)
    ensures forall i :: 0 <= i < |cs| && GivesDirect(cs[i], node, k) && (forall j :: i < j < |cs| ==> !GivesDirect(cs[j], node, k)) ==>
      DirectAt(cs, node).Some? && k in DirectAt(cs, node).value && DirectAt(cs, node).value[k] == Contribution(cs[i].credentials).value.properties[k]
  {
    if cs != [] {
      var n := |cs| - 1;
      LastPropertyWins(cs[..n], node, k);
      assert forall i :: 0 <= i < n ==> cs[..n][i] == cs[i];
    }
  }

  /** r is what the node gets: the typed credential of the last consumer of that identity with one; if no
      consumer has one, the direct properties of all, each from the last that gives it; else nothing. */
  ghost predicate NodeGets(cs: seq<Consumer>, node: string, r: Option<Resolved>) {
    match r
    case Some(Typed(t)) =>
      exists i :: 0 <= i < |cs| && node in cs[i].identities && FirstKnown(cs[i].credentials, t)
        && forall j :: i < j < |cs| && node in cs[j].identities ==> NoKnown(cs[j].credentials)
    case Some(Direct(m)) =>
      && NoTypedFor(cs, node) && (exists i :: 0 <= i < |cs| && node in cs[i].identities && SomeDirect(cs[i].credentials))
      && (forall k :: k in m <==> exists i :: 0 <= i < |cs| && GivesProperty(cs[i], node, k))
      && forall k :: k in m ==> LastGiven(cs, node, k, m[k])
    case None =>
      NoTypedFor(cs, node) && forall i :: 0 <= i < |cs| && node in cs[i].identities ==> !SomeDirect(cs[i].credentials)
  }

  ghost predicate NoTypedFor(cs: seq<Consumer>, node: string) {
    forall i :: 0 <= i < |cs| && node in cs[i].identities ==> NoKnown(cs[i].credentials)
  }

  ghost predicate GivesProperty(c: Consumer, node: string, k: string) {
    node in c.identities && exists i :: 0 <= i < |c.credentials| && HasProperty(c.credentials[i], k)
  }

  ghost predicate LastGiven(cs: seq<Consumer>, node: string, k: string, x: string) {
    exists i :: 0 <= i < |cs| && GivesProperty(cs[i], node, k) && LastProperty(cs[i].credentials, k, x)
      && forall j :: i < j < |cs| ==> !GivesProperty(cs[j], node, k)
  }

  lemma KnownOnce(creds: seq<Configured>, t: string)
    requires FirstKnown(creds, t)
    ensures !NoKnown(creds) && Contribution(creds) == Some(Typed(t))
  {
    hide FirstTyped, MergedDirect;
    FirstTypedIs(creds);
    var i :| 0 <= i < |creds| && creds[i] == Known(t) && forall j :: 0 <= j < i ==> !creds[j].Known?;
    assert !NoKnown(creds);
    var u := FirstTyped(creds).value;
    var k :| 0 <= k < |creds| && creds[k] == Known(u) && forall j :: 0 <= j < k ==> !creds[j].Known?;
    assert i == k;
  }

  lemma {:induction false} TypedIs(cs: seq<Consumer>, node: string)
    ensures match TypedAt(cs, node) case Some(t) => NodeGets(cs, node, Some(Typed(t))) case None => NoTypedFor(cs, node)
  {
    hide FirstKnown, NoKnown, Contribution;
    if cs != [] {
      var n := |cs| - 1;
      var before, last := cs[..n], cs[n];
      TypedIs(before, node);
      ContributionOf(last.credentials);
      assert forall i :: 0 <= i < n ==> before[i] == cs[i];
      if node in last.identities && Contribution(last.credentials).Some? && Contribution(last.credentials).value.Typed? {
        assert FirstKnown(cs[n].credentials, TypedAt(cs, node).value);
      } else if TypedAt(before, node).Some? {
        var t := TypedAt(before, node).value;
        var i :| 0 <= i < n && node in before[i].identities && FirstKnown(before[i].credentials, t)
          && forall j :: i < j < n && node in before[j].identities ==> NoKnown(before[j].credentials);
        assert FirstKnown(cs[i].credentials, t);
      }
    }
  }

  lemma NotTyped(creds: seq<Configured>)
    requires NoKnown(creds)
    ensures Contribution(creds).None? || Contribution(creds).value.Direct?
  {
    hide FirstTyped, MergedDirect;
    FirstTypedIs(creds);
  }

  /** What one consumer without typed credentials gives the node. */
  lemma Given(c: Consumer, node: string, k: string)
    requires node in c.identities ==> NoKnown(c.credentials)
    ensures var r := Contribution(c.credentials);
      && (node in c.identities ==> r.None? || r.value.Direct?)
      && (node in c.identities && r.Some? <==> node in c.identities && SomeDirect(c.credentials))
      && (node in c.identities && r.Some? && k in r.value.properties <==> GivesProperty(c, node, k))
      && (GivesProperty(c, node, k) ==> LastProperty(c.credentials, k, r.value.properties[k]))
  {
    hide Contribution, NoKnown, LastProperty;
    ContributionOf(c.credentials);
    if node in c.identities { NotTyped(c.credentials); }
    SomeHas(c.credentials, k);
  }

  lemma SomeHas(creds: seq<Configured>, k: string)
    ensures (exists i :: 0 <= i < |creds| && HasProperty(creds[i], k)) ==> SomeDirect(creds)
  {
  }

  lemma {:induction false} PropertyAt(cs: seq<Consumer>, node: string, k: string)
    requires NoTypedFor(cs, node)
    ensures DirectAt(cs, node).Some? <==> exists i :: 0 <= i < |cs| && node in cs[i].identities && SomeDirect(cs[i].credentials)
    ensures DirectAt(cs, node).Some? && k in DirectAt(cs, node).value <==> exists i :: 0 <= i < |cs| && GivesProperty(cs[i], node, k)
    ensures DirectAt(cs, node).Some? && k in DirectAt(cs, node).value ==> LastGiven(cs, node, k, DirectAt(cs, node).value[k])
  {
    hide NoKnown, Contribution, SomeDirect, LastProperty, GivesProperty;
    if cs != [] {
      var n := |cs| - 1;
      var before := cs[..n];
      assert forall i :: 0 <= i < n ==> before[i] == cs[i];
      PropertyAt(before, node, k);
      Given(cs[n], node, k);
      if DirectAt(cs, node).Some? && k in DirectAt(cs, node).value { GivenLater(cs, node, k, DirectAt(cs, node).value[k]); }
    }
  }

  lemma GivenLater(cs: seq<Consumer>, node: string, k: string, x: string)
    requires cs != []
    requires if GivesProperty(cs[|cs| - 1], node, k) then LastProperty(cs[|cs| - 1].credentials, k, x) else LastGiven(cs[..|cs| - 1], node, k, x)
    ensures LastGiven(cs, node, k, x)
  {
    hide LastProperty, GivesProperty;
    var n := |cs| - 1;
    var before := cs[..n];
    assert forall i :: 0 <= i < n ==> before[i] == cs[i];
    if GivesProperty(cs[n], node, k) {
      assert LastProperty(cs[n].credentials, k, x);
    } else {
      var i :| 0 <= i < n && GivesProperty(before[i], node, k) && LastProperty(before[i].credentials, k, x) && forall j :: i < j < n ==> !GivesProperty(before[j], node, k);
      assert GivesProperty(cs[i], node, k) && LastProperty(cs[i].credentials, k, x);
    }
  }

  /** Where no consumer has a typed credential. */
  lemma DirectIs(cs: seq<Consumer>, node: string)
    requires NoTypedFor(cs, node)
    ensures NodeGets(cs, node, if DirectAt(cs, node).Some? then Some(Direct(DirectAt(cs, node).value)) else None)
  {
    hide DirectAt, NoTypedFor, GivesProperty, LastGiven, SomeDirect;
    PropertyAt(cs, node, "");
    if DirectAt(cs, node).Some? {
      var m := DirectAt(cs, node).value;
      forall k ensures k in m <==> exists i :: 0 <= i < |cs| && GivesProperty(cs[i], node, k) { PropertyAt(cs, node, k); }
      forall k | k in m ensures LastGiven(cs, node, k, m[k]) { PropertyAt(cs, node, k); }
    }
  }

  lemma NodeIs(cs: seq<Consumer>, node: string)
    ensures NodeGets(cs, node, CredentialAt(cs, node))
  {
    hide TypedAt, DirectAt, NoTypedFor;
    TypedIs(cs, node);
    if TypedAt(cs, node).None? { DirectIs(cs, node); }
  }

  /** The consumers with something left for the plugins, in order, each with just that; at says where
      they come from. */
  ghost predicate Left(cs: seq<Consumer>, left: seq<Consumer>, at: seq<nat>) {
    && |at| == |left| && (forall k, l :: 0 <= k < l < |at| ==> at[k] < at[l])
    && (forall k {:trigger at[k]} :: 0 <= k < |at| ==>
      at[k] < |cs| && left[k].identities == cs[at[k]].identities && left[k].credentials != [] && RestIs(cs[at[k]].credentials, left[k].credentials))
    && forall i: nat {:trigger cs[i]} :: i < |cs| && i !in at ==> RestIs(cs[i].credentials, [])
  }

  ghost predicate LeftForPlugins(cs: seq<Consumer>, left: seq<Consumer>) {
    exists at :: Left(cs, left, at)
  }

  lemma {:induction false} PluginsGet(cs: seq<Consumer>) returns (at: seq<nat>)
    ensures Left(cs, PluginConsumers(cs), at)
  {
    hide RestIs, Left, ForPlugins;
    at := [];
    if cs == [] {
      NoneLeft();
    } else {
      var n := |cs| - 1;
      var a := PluginsGet(cs[..n]);
      RestOf(cs[n].credentials);
      if ForPlugins(cs[n].credentials) == [] {
        assert PluginConsumers(cs) == PluginConsumers(cs[..n]);
        LeftMore(cs, PluginConsumers(cs[..n]), a, []);
        at := a;
      } else {
        var c := cs[n].(credentials := ForPlugins(cs[n].credentials));
        LeftMore(cs, PluginConsumers(cs[..n]), a, [c]);
        at := a + [n];
      }
    }
  }

  lemma NoneLeft()
    ensures Left([], PluginConsumers([]), [])
  {
  }

  lemma LeftMore(cs: seq<Consumer>, left: seq<Consumer>, a: seq<nat>, more: seq<Consumer>)
    requires cs != [] && Left(cs[..|cs| - 1], left, a) && |more| <= 1
    requires more == [] ==> RestIs(cs[|cs| - 1].credentials, [])
    requires more != [] ==> more[0].identities == cs[|cs| - 1].identities && more[0].credentials != [] && RestIs(cs[|cs| - 1].credentials, more[0].credentials)
    ensures Left(cs, left + more, if more == [] then a else a + [|cs| - 1])
  {
    hide RestIs, Left;
    var n: nat := |cs| - 1;
    LeftTail(cs, n, left, a);
    if more == [] {
      assert left + more == left;
    } else {
      assert more == [more[0]];
      LeftAlso(cs, n, left, a, more[0]);
    }
  }

  /** All but the last consumer. */
  ghost predicate LeftBefore(cs: seq<Consumer>, n: nat, left: seq<Consumer>, a: seq<nat>)
    requires n <= |cs|
  {
    && |a| == |left| && (forall k, l :: 0 <= k < l < |a| ==> a[k] < a[l])
    && (forall k {:trigger a[k]} :: 0 <= k < |a| ==> a[k] < n && left[k].identities == cs[a[k]].identities && left[k].credentials != [] && RestIs(cs[a[k]].credentials, left[k].credentials))
    && forall i: nat {:trigger cs[i]} :: i < n && i !in a ==> RestIs(cs[i].credentials, [])
  }

  lemma LeftTail(cs: seq<Consumer>, n: nat, left: seq<Consumer>, a: seq<nat>)
    requires |cs| == n + 1 && Left(cs[..n], left, a)
    ensures LeftBefore(cs, n, left, a)
    ensures RestIs(cs[n].credentials, []) ==> Left(cs, left, a)
  {
    forall k {:trigger a[k]} | 0 <= k < |a|
      ensures a[k] < n && left[k].identities == cs[a[k]].identities && left[k].credentials != [] && RestIs(cs[a[k]].credentials, left[k].credentials)
    {
      assert cs[..n][a[k]] == cs[a[k]];
    }
    forall i: nat {:trigger cs[i]} | i < n && i !in a ensures RestIs(cs[i].credentials, []) {
      assert cs[..n][i] == cs[i];
    }
  }

  lemma LeftAlso(cs: seq<Consumer>, n: nat, left: seq<Consumer>, a: seq<nat>, c: Consumer)
    requires |cs| == n + 1 && LeftBefore(cs, n, left, a)
    requires c.identities == cs[n].identities && c.credentials != [] && RestIs(cs[n].credentials, c.credentials)
    ensures Left(cs, left + [c], a + [n])
  {
    var all, at := left + [c], a + [n];
    forall k {:trigger at[k]} | 0 <= k < |at|
      ensures at[k] < |cs| && all[k].identities == cs[at[k]].identities && all[k].credentials != [] && RestIs(cs[at[k]].credentials, all[k].credentials)
    {
      if k < |a| { assert at[k] == a[k] && all[k] == left[k]; }
    }
    forall k, l | 0 <= k < l < |at| ensures at[k] < at[l] {
      assert at[k] == a[k];
    }
    forall i: nat {:trigger cs[i]} | i < |cs| && i !in at ensures RestIs(cs[i].credentials, []) {
      assert at[|a|] == n;
      assert i in a ==> i in at;
    }
  }

  lemma PluginsAre(cs: seq<Consumer>)
    ensures LeftForPlugins(cs, PluginConsumers(cs))
  {
    hide Left;
    var at := PluginsGet(cs);
  }

  // ---- the code ----

  /** A credential in memory, shared by whoever holds a reference to it. */
  class DirectCredentials {
    var properties: map<string, string>

    constructor (properties: map<string, string>)
      ensures this.properties == properties
    {
      this.properties := properties;
    }
  }

  /** The direct credentials collected for each node: every node has an object of its own. */
  ghost predicate Own(direct: map<string, DirectCredentials>) {
    forall a, b {:trigger direct[a], direct[b]} :: a in direct && b in direct && direct[a] == direct[b] ==> a == b
  }

  ghost function Values(direct: map<string, DirectCredentials>): map<string, map<string, string>>
    reads direct.Values
  {
    map n | n in direct :: direct[n].properties
  }

  function Extended(values: map<string, map<string, string>>, node: string, d: map<string, string>): map<string, map<string, string>> {
    values[node := (if node in values then values[node] else map[]) + d]
  }

  /** Adds the properties to the node's own credential; no other node's credential changes. */
  method Accumulate(direct: map<string, DirectCredentials>, node: string, d: map<string, string>) returns (after: map<string, DirectCredentials>)
    requires Own(direct)
    modifies direct.Values
    ensures Own(after) && Values(after) == Extended(old(Values(direct)), node, d)
    ensures forall n {:trigger after[n]} :: n in after ==> (n in direct && after[n] == direct[n]) || fresh(after[n])
  {
    if node in direct {
      direct[node].properties := direct[node].properties + d;
      after := direct;
    } else {
      var clone := new DirectCredentials(map[] + d);
      after := direct[node := clone];
    }
  }

  /** What the inner loop makes of the maps of a consumer's identities. */
  ghost function AllExtended(values: map<string, map<string, string>>, nodes: seq<string>, d: map<string, string>): map<string, map<string, string>> {
    if nodes == [] then values else Extended(AllExtended(values, nodes[..|nodes| - 1], d), nodes[|nodes| - 1], d)
  }

  /** Naming an identity twice changes nothing. */
  lemma {:induction false} AllExtendedIs(values: map<string, map<string, string>>, nodes: seq<string>, d: map<string, string>)
    ensures forall n {:trigger n in AllExtended(values, nodes, d)} :: n in AllExtended(values, nodes, d) <==> n in values || n in nodes
    ensures forall n {:trigger AllExtended(values, nodes, d)[n]} :: n in AllExtended(values, nodes, d) ==>
      AllExtended(values, nodes, d)[n] ==
        if n in nodes then (if n in values then values[n] else map[]) + d else values[n]
  {
    if nodes != [] {
      var k := |nodes| - 1;
      AllExtendedIs(values, nodes[..k], d);
      assert nodes == nodes[..k] + [nodes[k]];
      assert forall m: map<string, string> :: (m + d) + d == m + d;
    }
  }

  ghost predicate TypedAre(typed: map<string, string>, cs: seq<Consumer>) {
    forall n {:trigger n in typed} :: if n in typed then TypedAt(cs, n) == Some(typed[n]) else TypedAt(cs, n) == None
  }

  ghost predicate DirectAre(values: map<string, map<string, string>>, cs: seq<Consumer>) {
    forall n {:trigger n in values} :: if n in values then DirectAt(cs, n) == Some(values[n]) else DirectAt(cs, n) == None
  }

  lemma NoConsumers()
    ensures TypedAre(map[], []) && DirectAre(map[], [])
  {
  }

  lemma TypedStep(cs: seq<Consumer>, c: Consumer, typed: map<string, string>, after: map<string, string>)
    requires TypedAre(typed, cs)
    requires var r := Contribution(c.credentials);
      if r.Some? && r.value.Typed? then
        (forall n {:trigger n in after} :: n in after <==> n in typed || n in c.identities) && (forall n {:trigger after[n]} :: n in after ==> after[n] == if n in c.identities then r.value.typed else typed[n])
      else after == typed
    ensures TypedAre(after, cs + [c])
  {
    assert (cs + [c])[..|cs|] == cs;
    forall n {:trigger n in after} ensures if n in after then TypedAt(cs + [c], n) == Some(after[n]) else TypedAt(cs + [c], n) == None {
      assert if n in typed then TypedAt(cs, n) == Some(typed[n]) else TypedAt(cs, n) == None;
    }
  }

  lemma DirectStep(cs: seq<Consumer>, c: Consumer, values: map<string, map<string, string>>, after: map<string, map<string, string>>)
    requires DirectAre(values, cs)
    requires var r := Contribution(c.credentials);
      if r.Some? && r.value.Direct? then after == AllExtended(values, c.identities, r.value.properties) else after == values
    ensures DirectAre(after, cs + [c])
  {
    assert (cs + [c])[..|cs|] == cs;
    var r := Contribution(c.credentials);
    if r.Some? && r.value.Direct? { AllExtendedIs(values, c.identities, r.value.properties); }
    forall n {:trigger n in after} ensures if n in after then DirectAt(cs + [c], n) == Some(after[n]) else DirectAt(cs + [c], n) == None {
      assert if n in values then DirectAt(cs, n) == Some(values[n]) else DirectAt(cs, n) == None;
    }
  }

  /** The first phase: fails if a credential is faulty or an identity cannot be added; otherwise each
      node gets the credential of the specification, and the rest goes to the plugins in order. */
  method ProcessDirectCredentials(cs: seq<Consumer>, rejected: set<string>) returns (ok: bool, creds: map<string, Resolved>, consumers: seq<Consumer>)
    ensures ok <==> forall c :: c in cs ==> Accepted(c, rejected)
    ensures ok ==> consumers == PluginConsumers(cs)
    ensures ok ==> LeftForPlugins(cs, consumers)
    ensures ok ==> forall n {:trigger n in creds} :: if n in creds then CredentialAt(cs, n) == Some(creds[n]) else CredentialAt(cs, n) == None
    ensures ok ==> forall n {:trigger n in creds} :: NodeGets(cs, n, if n in creds then Some(creds[n]) else None)
  {
    hide NodeGets, LeftForPlugins, ContributionIs, RestIs, TypedAt, DirectAt, AllExtended, Faulty, ForPlugins;
    NoConsumers();
    var typed: map<string, string> := map[];
    var direct: map<string, DirectCredentials> := map[];
    ok, creds, consumers := true, map[], [];
    for i := 0 to |cs|
      invariant ok && consumers == PluginConsumers(cs[..i]) && forall c :: c in cs[..i] ==> Accepted(c, rejected)
      invariant Own(direct) && forall n {:trigger direct[n]} :: n in direct ==> fresh(direct[n])
      invariant TypedAre(typed, cs[..i]) && DirectAre(Values(direct), cs[..i])
    {
      assert cs[..i + 1] == cs[..i] + [cs[i]] && cs[i] in cs;
      ghost var typed0, values0 := typed, Values(direct);
      var fine, resolved, remaining := ExtractResolvable(cs[i].credentials);
      if !fine { return false, map[], []; }
      if resolved.Some? {
        if exists n :: n in cs[i].identities && n in rejected { return false, map[], []; }
        if resolved.value.Typed? {
          typed := SetAll(typed, cs[i].identities, resolved.value.typed);
        } else {
          direct := AccumulateAll(direct, cs[i].identities, resolved.value.properties);
        }
      }
      TypedStep(cs[..i], cs[i], typed0, typed);
      DirectStep(cs[..i], cs[i], values0, Values(direct));
      if |remaining| > 0 { consumers := consumers + [cs[i].(credentials := remaining)]; }
    }
    assert cs[..|cs|] == cs;
    creds := (map n | n in direct :: Direct(direct[n].properties)) + (map n | n in typed :: Typed(typed[n]));
    PluginsAre(cs);
    forall n {:trigger n in creds} ensures NodeGets(cs, n, CredentialAt(cs, n)) { NodeIs(cs, n); }
  }

  /** All credentials of the consumer can be read, and its identities added if it contributes. */
  predicate Accepted(c: Consumer, rejected: set<string>) {
    && (forall x :: x in c.credentials ==> !Faulty(x))
    && (Contribution(c.credentials).Some? ==> forall n :: n in c.identities ==> n !in rejected)
  }

  method SetAll(typed: map<string, string>, nodes: seq<string>, t: string) returns (after: map<string, string>)
    ensures forall n {:trigger n in after} :: n in after <==> n in typed || n in nodes
    ensures forall n {:trigger after[n]} :: n in after ==> after[n] == if n in nodes then t else typed[n]
  {
    after := typed;
    for j := 0 to |nodes|
      invariant forall n {:trigger n in after} :: n in after <==> n in typed || n in nodes[..j]
      invariant forall n {:trigger after[n]} :: n in after ==> after[n] == if n in nodes[..j] then t else typed[n]
    {
      after := after[nodes[j] := t];
    }
    assert nodes[..|nodes|] == nodes;
  }

  method AccumulateAll(direct: map<string, DirectCredentials>, nodes: seq<string>,
      d: map<string, string>) returns (after: map<string, DirectCredentials>)
    requires Own(direct)
    modifies direct.Values
    ensures Own(after) && Values(after) == AllExtended(old(Values(direct)), nodes, d)
    ensures forall n {:trigger after[n]} :: n in after ==> (n in direct && after[n] == direct[n]) || fresh(after[n])
  {
    after := direct;
    for j := 0 to |nodes|
      invariant Own(after) && Values(after) == AllExtended(old(Values(direct)), nodes[..j], d)
      invariant forall n {:trigger after[n]} :: n in after ==> (n in direct && after[n] == direct[n]) || fresh(after[n])
    {
      assert nodes[..j + 1][..j] == nodes[..j];
      after := Accumulate(after, nodes[j], d);
    }
    assert nodes[..|nodes|] == nodes;
  }
}
