/** Adding a component version to an OCI store and what reading it back finds
    (bindings/go/oci: repository.go, store_descriptor.go, pin.go). */
module OciAdding {
  import opened Graphs
  import opened OciArtifacts
  import opened OciPins

  /** The digest new documents get: under the canonical algorithm. */
  function FromBytes(p: Params, b: Bytes): string {
    p.hash("sha256", b)
  }

  /** Canonical digests are valid and verify. */
  ghost predicate Canonical(p: Params) {
    forall b {:trigger FromBytes(p, b)} :: p.valid(FromBytes(p, b)) && Digested(p, FromBytes(p, b), b)
  }

  /** The decoders undo the encoders. */
  ghost predicate Codecs(p: Params) {
    && (forall m {:trigger p.encodeManifest(m)} :: p.manifestOf(p.encodeManifest(m)) == Some(m))
    && (forall x {:trigger p.encodeIndex(x)} :: p.indexOf(p.encodeIndex(x)) == Some(x))
    && (forall d {:trigger p.encodeConfig(d)} :: p.configOf(p.encodeConfig(d)) == Some(Some(d)))
    && (forall c, mediaType {:trigger p.encodeComponent(c, mediaType)} :: p.componentOf(p.encodeComponent(c, mediaType), mediaType) == Some(c))
    && Canonical(p)
  }

  /** Media types the OCI client treats as manifests. */
  predicate IsManifestType(mediaType: string) {
    mediaType == manifestType || mediaType == indexType || mediaType == dockerManifestType || mediaType == dockerListType
  }

  function DescOf(p: Params, mediaType: string, data: Bytes): Desc {
    Desc(mediaType, FromBytes(p, data), |data|)
  }

  /** The documents of a component version. */
  function LayerOf(p: Params, c: Component, mediaType: string): Desc {
    DescOf(p, mediaType, p.encodeComponent(c, mediaType))
  }

  function ConfigOf(p: Params, c: Component, mediaType: string): Desc {
    DescOf(p, configType, p.encodeConfig(LayerOf(p, c, mediaType)))
  }

  function ManifestFor(p: Params, c: Component, mediaType: string, layers: seq<Desc>): Manifest {
    Manifest(ConfigOf(p, c, mediaType), [LayerOf(p, c, mediaType)] + layers)
  }

  function IndexFor(p: Params, m: Manifest, manifests: seq<Desc>): Index {
    Index([DescOf(p, manifestType, p.encodeManifest(m))] + manifests)
  }

  /** What adding returns: the manifest, or the index if there are further manifests. */
  function RootOf(p: Params, c: Component, mediaType: string, manifests: seq<Desc>, layers: seq<Desc>): Desc {
    var m := ManifestFor(p, c, mediaType, layers);
    if manifests == [] then DescOf(p, manifestType, p.encodeManifest(m)) else DescOf(p, indexType, p.encodeIndex(IndexFor(p, m, manifests)))
  }

  /** The store serves the document under its canonical digest. */
  predicate Has(p: Params, content: map<string, Bytes>, b: Bytes) {
    Serves(content, FromBytes(p, b), b)
  }

  /** All of them are in the store. */
  predicate Holds(p: Params, content: map<string, Bytes>, c: Component, mediaType: string, manifests: seq<Desc>, layers: seq<Desc>) {
    var m := ManifestFor(p, c, mediaType, layers);
    && Has(p, content, p.encodeComponent(c, mediaType)) && Has(p, content, p.encodeConfig(LayerOf(p, c, mediaType)))
    && Has(p, content, p.encodeManifest(m)) && (manifests != [] ==> Has(p, content, p.encodeIndex(IndexFor(p, m, manifests))))
  }

  /** The store reports the digest and kind of root, and its size if any. */
  predicate SameRoot(base: Desc, root: Desc) {
    base.digest == root.digest && base.mediaType == root.mediaType && (base.size > 0 ==> base.size == root.size)
  }

  lemma SameAsItself(root: Desc)
    ensures SameRoot(root, root)
  {
  }

  lemma FetchServed(p: Params, s: Store, mediaType: string, data: Bytes)
    requires Codecs(p) && Has(p, s.content, data)
    ensures forall base {:trigger FetchVerified(p, s, base)} :: SameRoot(base, DescOf(p, mediaType, data)) ==> FetchVerified(p, s, base) == Ok(data)
  {
  }

  /** Reading what was added gives it back, in the manifest as well as in the index form. */
  lemma ReadBack(p: Params, env: Env, t: nat, base: Desc, c: Component, mediaType: string, manifests: seq<Desc>, layers: seq<Desc>)
    requires Codecs(p) && SameRoot(base, RootOf(p, c, mediaType, manifests, layers))
    requires forall u: nat {:trigger env(u)} :: Holds(p, env(u).content, c, mediaType, manifests, layers)
    ensures var m := ManifestFor(p, c, mediaType, layers);
      ReadFrom(p, env, t, base) == Ok(Stored(c, m, if manifests == [] then None else Some(IndexFor(p, m, manifests))))
  {
    hide FetchVerified;
    TypesDiffer();
    var m := ManifestFor(p, c, mediaType, layers);
    assert Holds(p, env(t).content, c, mediaType, manifests, layers) && Holds(p, env(t + 1).content, c, mediaType, manifests, layers);
    assert Holds(p, env(t + 2).content, c, mediaType, manifests, layers) && Holds(p, env(t + 2 + 1).content, c, mediaType, manifests, layers);
    FetchServed(p, env(t + 2), configType, p.encodeConfig(LayerOf(p, c, mediaType)));
    FetchServed(p, env(t + 2 + 1), mediaType, p.encodeComponent(c, mediaType));
    assert ReadComponent(p, env, t + 2, m) == Ok(c);
    if manifests == [] {
      FetchServed(p, env(t), manifestType, p.encodeManifest(m));
    } else {
      FetchServed(p, env(t), indexType, p.encodeIndex(IndexFor(p, m, manifests)));
      FetchServed(p, env(t + 1), manifestType, p.encodeManifest(m));
    }
  }

  function CollectDescriptors(index: Option<Index>, m: Manifest): seq<Desc> {
    match index
    case None => m.layers
    case Some(x) => x.manifests + m.layers
  }

  function FindDescriptor(p: Params, descs: seq<Desc>, reference: string): Option<Desc> {
    if !p.valid(reference) then None else FirstWith(descs, reference)
  }

  function FirstWith(descs: seq<Desc>, digest: string): (r: Option<Desc>)
    ensures r.Some? ==> r.value in descs && r.value.digest == digest
    ensures r.None? <==> forall d :: d in descs ==> d.digest != digest
  {
    if descs == [] then None else if descs[0].digest == digest then Some(descs[0]) else FirstWith(descs[1..], digest)
  }

  /** The descriptor found stands before all others with the digest. */
  lemma {:induction false} FoundFirst(descs: seq<Desc>, digest: string, k: nat)
    requires k < |descs| && descs[k].digest == digest && forall j {:trigger descs[j]} :: 0 <= j < k ==> descs[j].digest != digest
    ensures FirstWith(descs, digest) == Some(descs[k])
  {
    if k > 0 {
      assert descs[0].digest != digest;
      FoundFirst(descs[1..], digest, k - 1);
    }
  }

  /** What a local blob's reference resolves to: by digest, or by tag. */
  function ResolveReference(p: Params, s: Store, reference: string): Option<Desc> {
    if p.valid(reference) then (if reference in s.known then Some(s.known[reference]) else None)
    else ResolveTag(s, reference)
  }

  function Adopted(d: Desc, b: LocalBlob): Desc {
    if b.mediaType != "" then d.(mediaType := b.mediaType) else d
  }

  /** Every local blob is among the manifests or the layers, in the order of the blobs. */
  function BlobDescs(p: Params, s: Store, blobs: seq<LocalBlob>): Option<seq<Desc>> {
    if blobs == [] then Some([])
    else match (BlobDescs(p, s, blobs[..|blobs| - 1]), ResolveReference(p, s, blobs[|blobs| - 1].reference))
      case (Some(descs), Some(d)) => Some(descs + [Adopted(d, blobs[|blobs| - 1])])
      case _ => None
  }

  function Chosen(descs: seq<Desc>, manifests: bool): seq<Desc> {
    if descs == [] then []
    else Chosen(descs[..|descs| - 1], manifests) + if IsManifestType(descs[|descs| - 1].mediaType) == manifests then [descs[|descs| - 1]] else []
  }

  /** The media types that go into the index: manifests and indexes, of OCI and of Docker. */
  lemma ManifestTypes(mediaType: string)
    ensures IsManifestType(mediaType) <==> mediaType in {
      "application/vnd.oci.image.manifest.v1+json", "application/vnd.oci.image.index.v1+json",
      "application/vnd.docker.distribution.manifest.v2+json", "application/vnd.docker.distribution.manifest.list.v2+json"}
  {
  }

  predicate OfKind(d: Desc, manifests: bool) {
    IsManifestType(d.mediaType) == manifests
  }

  /** The chosen ones are the first n of descs at the positions at, and of the kind. */
  predicate Places(descs: seq<Desc>, n: nat, manifests: bool, chosen: seq<Desc>, at: seq<nat>)
    requires n <= |descs|
  {
    |chosen| == |at| && forall i {:trigger at[i]} :: 0 <= i < |at| ==> at[i] < n && chosen[i] == descs[at[i]] && OfKind(chosen[i], manifests)
  }

  predicate Ascends(at: seq<nat>) {
    forall i, j {:trigger at[i], at[j]} :: 0 <= i < j < |at| ==> at[i] < at[j]
  }

  predicate Covers(descs: seq<Desc>, n: nat, manifests: bool, at: seq<nat>)
    requires n <= |descs|
  {
    forall k: nat {:trigger descs[k]} :: k < n && OfKind(descs[k], manifests) ==> k in at
  }

  /** Of descs the chosen ones are those at the positions at, in the order of descs: all of the kind. */
  predicate ChoiceIs(descs: seq<Desc>, manifests: bool, chosen: seq<Desc>, at: seq<nat>) {
    Places(descs, |descs|, manifests, chosen, at) && Ascends(at) && Covers(descs, |descs|, manifests, at)
  }

  lemma {:induction false} ChosenAre(descs: seq<Desc>, manifests: bool)
    ensures exists at :: ChoiceIs(descs, manifests, Chosen(descs, manifests), at)
  {
    hide ChoiceIs;
    if descs == [] {
      NothingChosen(manifests);
      assert ChoiceIs(descs, manifests, Chosen(descs, manifests), []);
    } else {
      var n: nat := |descs| - 1;
      ChosenAre(descs[..n], manifests);
      var before := Chosen(descs[..n], manifests);
      var at :| ChoiceIs(descs[..n], manifests, before, at);
      var more := if IsManifestType(descs[n].mediaType) == manifests then at + [n] else at;
      ChoiceGrows(descs, manifests, n, before, at, more);
      assert ChoiceIs(descs, manifests, Chosen(descs, manifests), more);
    }
  }

  lemma NothingChosen(manifests: bool)
    ensures ChoiceIs([], manifests, [], [])
  {
  }

  lemma ChoiceGrows(descs: seq<Desc>, manifests: bool, n: nat, before: seq<Desc>, at: seq<nat>, more: seq<nat>)
    requires |descs| == n + 1 && ChoiceIs(descs[..n], manifests, before, at)
    requires more == if IsManifestType(descs[n].mediaType) == manifests then at + [n] else at
    ensures ChoiceIs(descs, manifests, before + if IsManifestType(descs[n].mediaType) == manifests then [descs[n]] else [], more)
  {
    hide Places, Ascends, Covers;
    PlacesBefore(descs, manifests, n, before, at);
    CoversBefore(descs, manifests, n, at);
    if OfKind(descs[n], manifests) {
      PlacesLast(descs, manifests, n, before, at);
      AscendsLast(descs, manifests, n, before, at);
      CoversLast(descs, manifests, n, at);
    } else {
      assert before + [] == before;
    }
  }

  lemma PlacesBefore(descs: seq<Desc>, manifests: bool, n: nat, before: seq<Desc>, at: seq<nat>)
    requires |descs| == n + 1 && Places(descs[..n], n, manifests, before, at)
    ensures Places(descs, n, manifests, before, at) && Places(descs, n + 1, manifests, before, at)
  {
    forall i {:trigger at[i]} | 0 <= i < |at| ensures at[i] < n && before[i] == descs[at[i]] { assert descs[..n][at[i]] == descs[at[i]]; }
  }

  lemma CoversBefore(descs: seq<Desc>, manifests: bool, n: nat, at: seq<nat>)
    requires |descs| == n + 1 && Covers(descs[..n], n, manifests, at)
    ensures Covers(descs, n, manifests, at) && (!OfKind(descs[n], manifests) ==> Covers(descs, n + 1, manifests, at))
  {
    forall k: nat {:trigger descs[k]} | k < n && OfKind(descs[k], manifests) ensures k in at { assert descs[..n][k] == descs[k]; }
  }

  lemma PlacesLast(descs: seq<Desc>, manifests: bool, n: nat, before: seq<Desc>, at: seq<nat>)
    requires |descs| == n + 1 && Places(descs, n, manifests, before, at) && OfKind(descs[n], manifests)
    ensures Places(descs, n + 1, manifests, before + [descs[n]], at + [n])
  {
    var chosen, more := before + [descs[n]], at + [n];
    forall i {:trigger more[i]} | 0 <= i < |more| ensures more[i] < n + 1 && chosen[i] == descs[more[i]] && OfKind(chosen[i], manifests) {
      if i < |at| { assert more[i] == at[i] && chosen[i] == before[i]; }
    }
  }

  lemma AscendsLast(descs: seq<Desc>, manifests: bool, n: nat, before: seq<Desc>, at: seq<nat>)
    requires n <= |descs| && Ascends(at) && Places(descs, n, manifests, before, at)
    ensures Ascends(at + [n])
  {
    var more := at + [n];
    forall i, j {:trigger more[i], more[j]} | 0 <= i < j < |more| ensures more[i] < more[j] {
      assert more[i] == at[i];
      if j < |at| { assert more[j] == at[j]; }
    }
  }

  lemma CoversLast(descs: seq<Desc>, manifests: bool, n: nat, at: seq<nat>)
    requires |descs| == n + 1 && Covers(descs, n, manifests, at)
    ensures Covers(descs, n + 1, manifests, at + [n])
  {
    var more := at + [n];
    forall k: nat {:trigger descs[k]} | k < n + 1 && OfKind(descs[k], manifests) ensures k in more {
      if k < n { assert k in at; } else { assert more[|at|] == n; }
    }
  }

  /** What adding a component version makes of one of its local blobs: the digest and size of what the
      reference resolves to, a digest through what the store knows of it and a tag through its digest,
      with the media type that the component gives, if it gives one. */
  ghost predicate BlobDescIs(p: Params, s: Store, b: LocalBlob, d: Desc) {
    var digest := if p.valid(b.reference) then b.reference else if b.reference in s.tags then s.tags[b.reference] else "";
    && (p.valid(b.reference) || b.reference in s.tags) && digest in s.known
    && d.digest == s.known[digest].digest && d.size == s.known[digest].size
    && d.mediaType == if b.mediaType == "" then s.known[digest].mediaType else b.mediaType
  }

  ghost predicate AllDescs(p: Params, s: Store, blobs: seq<LocalBlob>, descs: seq<Desc>) {
    |descs| == |blobs| && forall i {:trigger descs[i]} :: 0 <= i < |blobs| ==> BlobDescIs(p, s, blobs[i], descs[i])
  }

  /** All local blobs must resolve, and each has its descriptor, in their order. */
  lemma {:induction false} BlobDescsExactly(p: Params, s: Store, blobs: seq<LocalBlob>, descs: seq<Desc>)
    ensures BlobDescs(p, s, blobs) == Some(descs) <==> AllDescs(p, s, blobs, descs)
  {
    hide BlobDescIs, ResolveReference, Adopted;
    if blobs == [] {
      assert descs == [] <==> AllDescs(p, s, blobs, descs);
    } else {
      var n := |blobs| - 1;
      if |descs| == |blobs| {
        BlobDescsExactly(p, s, blobs[..n], descs[..n]);
        BlobDescOf(p, s, blobs[n], descs[n]);
        assert descs == descs[..n] + [descs[n]];
        AllDescsLast(p, s, blobs, descs, n);
      }
      if BlobDescs(p, s, blobs[..n]).Some? { BlobDescsExactly(p, s, blobs[..n], BlobDescs(p, s, blobs[..n]).value); }
    }
  }

  lemma BlobDescOf(p: Params, s: Store, b: LocalBlob, d: Desc)
    ensures BlobDescIs(p, s, b, d) <==> ResolveReference(p, s, b.reference).Some? && Adopted(ResolveReference(p, s, b.reference).value, b) == d
  {
  }

  lemma AllDescsLast(p: Params, s: Store, blobs: seq<LocalBlob>, descs: seq<Desc>, n: nat)
    requires |descs| == |blobs| == n + 1
    ensures AllDescs(p, s, blobs, descs) <==> AllDescs(p, s, blobs[..n], descs[..n]) && BlobDescIs(p, s, blobs[n], descs[n])
  {
    hide BlobDescIs;
    assert forall i {:trigger descs[i]} :: 0 <= i < n ==> descs[i] == descs[..n][i] && blobs[i] == blobs[..n][i];
    assert AllDescs(p, s, blobs[..n], descs[..n]) ==> forall i {:trigger descs[i]} :: 0 <= i < n ==> BlobDescIs(p, s, blobs[..n][i], descs[..n][i]);
  }

  lemma {:induction false} ChosenCovers(descs: seq<Desc>, d: Desc)
    requires d in descs
    ensures d in Chosen(descs, true) || d in Chosen(descs, false)
  {
    var n := |descs| - 1;
    if d != descs[n] {
      assert d in descs[..n];
      ChosenCovers(descs[..n], d);
    }
  }

  lemma {:induction false} BlobDescsCover(p: Params, s: Store, blobs: seq<LocalBlob>, b: LocalBlob)
    requires b in blobs && BlobDescs(p, s, blobs).Some? && Keyed(s) && p.valid(b.reference)
    ensures exists d :: d in BlobDescs(p, s, blobs).value && d.digest == b.reference
  {
    var n := |blobs| - 1;
    if b == blobs[n] {
      assert s.known[b.reference].digest == b.reference;
      assert Adopted(s.known[b.reference], b) in BlobDescs(p, s, blobs).value;
    } else {
      assert b in blobs[..n];
      BlobDescsCover(p, s, blobs[..n], b);
    }
  }

  lemma PushKeeps(p: Params, content: map<string, Bytes>, data: Bytes)
    requires CollisionFree(p) && Canonical(p)
    ensures forall x {:trigger Has(p, content, x)} {:trigger Has(p, content[FromBytes(p, data) := data], x)} :: Has(p, content, x) ==> Has(p, content[FromBytes(p, data) := data], x)
    ensures Has(p, content[FromBytes(p, data) := data], data)
  {
    hide Digested;
    forall x {:trigger Has(p, content, x)} {:trigger Has(p, content[FromBytes(p, data) := data], x)} | Has(p, content, x)
      ensures Has(p, content[FromBytes(p, data) := data], x)
    {
      assert Digested(p, FromBytes(p, x), x) && Digested(p, FromBytes(p, data), data);
    }
  }

  /** Nothing moves or disappears: the store stays as it is. */
  function Still(s: Store): Env {
    t => s
  }

  /** Reading the tag gives the descriptor, and a local blob is found among the descriptors read if and
      only if it is named by a digest. */
  ghost predicate ReadsBack(p: Params, s: Store, c: Component) {
    var r := ReadComponentVersion(p, Still(s), 0, Repository(None), c.name, c.version);
    && r.Ok? && r.value.component == c
    && forall b :: b in c.blobs ==> (FindDescriptor(p, CollectDescriptors(r.value.index, r.value.manifest), b.reference).Some? <==> p.valid(b.reference))
  }

  /** What the store knows of a digest is a descriptor with that digest. */
  predicate Keyed(s: Store) {
    forall d {:trigger s.known[d]} :: d in s.known ==> s.known[d].digest == d
  }

  lemma AddedReadsBack(p: Params, before: Store, s: Store, c: Component, mediaType: string)
    requires Codecs(p) && Keyed(before) && BlobDescs(p, before, c.blobs).Some?
    requires var descs := BlobDescs(p, before, c.blobs).value;
      && Holds(p, s.content, c, mediaType, Chosen(descs, true), Chosen(descs, false))
      && ResolveTag(s, p.tagOf(c.name, c.version)).Some? && SameRoot(ResolveTag(s, p.tagOf(c.name, c.version)).value, RootOf(p, c, mediaType, Chosen(descs, true), Chosen(descs, false)))
    ensures ReadsBack(p, s, c)
  {
    hide ReadFrom, Holds, Codecs, RootOf, SameRoot, Keyed;
    var descs := BlobDescs(p, before, c.blobs).value;
    var manifests, layers := Chosen(descs, true), Chosen(descs, false);
    ReadBack(p, Still(s), 1, ResolveTag(s, p.tagOf(c.name, c.version)).value, c, mediaType, manifests, layers);
    var m := ManifestFor(p, c, mediaType, layers);
    var collected := CollectDescriptors(if manifests == [] then None else Some(IndexFor(p, m, manifests)), m);
    forall b | b in c.blobs && p.valid(b.reference) ensures FindDescriptor(p, collected, b.reference).Some? {
      BlobDescsCover(p, before, c.blobs, b);
      var d :| d in descs && d.digest == b.reference;
      ChosenCovers(descs, d);
      assert d in collected;
    }
  }

  /** The repository is pinned to an artifact of the component, and the tag resolves to another one. */
  predicate MovedAway(s: Store, repo: Repository, component: string, tag: string) {
    repo.pin.Some? && repo.pin.value.component == component && ResolveTag(s, tag).Some? && ResolveTag(s, tag).value.digest != repo.pin.value.digest
  }

  /** The store as AddComponentVersion changes it. */
  class Target {
    const p: Params
    var tags: map<string, string>
    var known: map<string, Desc>
    var content: map<string, Bytes>

    ghost function Value(): Store
      reads this
    {
      Store(tags, known, content)
    }

    predicate Valid()
      reads this
    {
      Keyed(Store(tags, known, content))
    }

    constructor (p: Params)
      ensures Valid() && this.p == p && Value() == Store(map[], map[], map[])
    {
      this.p, tags, known, content := p, map[], map[], map[];
    }

    /** A push fails, or stores the bytes under their digest and the store knows the descriptor. */
    method Push(d: Desc, data: Bytes) returns (ok: bool)
      requires Valid()
      modifies this`known, this`content
      ensures Valid()
      ensures if ok then known == old(known)[d.digest := d] && content == old(content)[d.digest := data] else known == old(known) && content == old(content)
    {
      ok := *;
      if ok {
        known := known[d.digest := d];
        content := content[d.digest := data];
      }
    }

    /** Tagging is rejected, or moves the tag. */
    method Tag(d: Desc, reference: string) returns (ok: bool)
      modifies this`tags
      ensures tags == if ok then old(tags)[reference := d.digest] else old(tags)
    {
      ok := *;
      if ok { tags := tags[reference := d.digest]; }
    }

    /** If tagging is rejected but the tag has the digest already, all is as wanted. */
    method TagIdempotent(d: Desc, reference: string) returns (ok: bool)
      requires Valid() && d.digest in known
      modifies this`tags
      ensures Valid()
      ensures ok <==> reference in tags && tags[reference] == d.digest
      ensures tags == if ok then old(tags)[reference := d.digest] else old(tags)
    {
      ok := Tag(d, reference);
      if ok { return; }
      var existing := ResolveTag(Store(tags, known, content), reference);
      ok := existing.Some? && existing.value.digest == d.digest;
      assert ok ==> tags == tags[reference := d.digest];
    }

    /** A pinned repository does not overwrite a tag that has moved away from the pin. */
    method CheckPinnedTag(repo: Repository, component: string, version: string) returns (ok: bool)
      ensures !ok <==> MovedAway(Value(), repo, component, p.tagOf(component, version))
    {
      if repo.pin == None || repo.pin.value.component != component { return true; }
      var current := ResolveTag(Store(tags, known, content), p.tagOf(component, version));
      if current == None { return true; }
      ok := current.value.digest == repo.pin.value.digest;
    }

    method IdentifyLocalBlobs(blobs: seq<LocalBlob>) returns (r: Option<(seq<Desc>, seq<Desc>)>)
      ensures match BlobDescs(p, Value(), blobs)
        case None => r == None
        case Some(descs) => r == Some((Chosen(descs, true), Chosen(descs, false)))
    {
      var results: seq<Desc> := [];
      for i := 0 to |blobs|
        invariant BlobDescs(p, Value(), blobs[..i]) == Some(results)
      {
        assert blobs[..i + 1][..i] == blobs[..i];
        var d := ResolveReference(p, Store(tags, known, content), blobs[i].reference);
        if d == None {
          MissingBlob(p, Value(), blobs, i);
          return None;
        }
        results := results + [Adopted(d.value, blobs[i])];
      }
      assert blobs[..|blobs|] == blobs;
      var manifests, layers: seq<Desc> := [], [];
      for i := 0 to |results|
        invariant manifests == Chosen(results[..i], true) && layers == Chosen(results[..i], false)
      {
        assert results[..i + 1][..i] == results[..i];
        if IsManifestType(results[i].mediaType) { manifests := manifests + [results[i]]; } else { layers := layers + [results[i]]; }
      }
      assert results[..|results|] == results;
      r := Some((manifests, layers));
    }

    method AddDescriptorToStore(c: Component, mediaType: string, manifests: seq<Desc>, layers: seq<Desc>) returns (r: Option<Desc>)
      requires Valid() && CollisionFree(p) && Canonical(p)
      modifies this`known, this`content
      ensures Valid()
      ensures r.Some? ==> r.value == RootOf(p, c, mediaType, manifests, layers) && Holds(p, content, c, mediaType, manifests, layers)
      ensures r.Some? ==> r.value.digest in known && known[r.value.digest] == r.value
      ensures forall x {:trigger Has(p, content, x)} :: old(Has(p, content, x)) ==> Has(p, content, x)
    {
      hide Has, CollisionFree, Canonical;
      var layerBytes := p.encodeComponent(c, mediaType);
      var layer := DescOf(p, mediaType, layerBytes);
      PushKeeps(p, content, layerBytes);
      var ok := Push(layer, layerBytes);
      if !ok { return None; }
      var configBytes := p.encodeConfig(layer);
      var config := DescOf(p, configType, configBytes);
      PushKeeps(p, content, configBytes);
      ok := Push(config, configBytes);
      if !ok { return None; }
      var manifest := Manifest(config, [layer] + layers);
      var manifestBytes := p.encodeManifest(manifest);
      var manifestDesc := DescOf(p, manifestType, manifestBytes);
      PushKeeps(p, content, manifestBytes);
      ok := Push(manifestDesc, manifestBytes);
      if !ok { return None; }
      if |manifests| == 0 { return Some(manifestDesc); }
      var index := Index([manifestDesc] + manifests);
      var indexBytes := p.encodeIndex(index);
      var indexDesc := DescOf(p, indexType, indexBytes);
      PushKeeps(p, content, indexBytes);
      ok := Push(indexDesc, indexBytes);
      if !ok { return None; }
      r := Some(indexDesc);
    }

    /** On success the tag resolves to the artifact made of the component and its local blobs, the
        store has all its documents, and reading the tag gives all of it back, whether the tag was
        written or had the digest already. Other tags are untouched, and so are all on failure. */
    method AddComponentVersion(repo: Repository, c: Component, mediaType: string) returns (ok: bool)
      requires Valid() && CollisionFree(p) && Canonical(p)
      modifies this
      ensures Valid()
      ensures ok ==> BlobDescs(p, old(Value()), c.blobs).Some?
      ensures ok ==> var descs := BlobDescs(p, old(Value()), c.blobs).value;
        && Holds(p, content, c, mediaType, Chosen(descs, true), Chosen(descs, false))
        && ResolveTag(Value(), p.tagOf(c.name, c.version)) == Some(RootOf(p, c, mediaType, Chosen(descs, true), Chosen(descs, false)))
      ensures ok && Codecs(p) ==> ReadsBack(p, Value(), c)
      ensures ok ==> !MovedAway(old(Value()), repo, c.name, p.tagOf(c.name, c.version))
      ensures forall tag :: tag != p.tagOf(c.name, c.version) || !ok ==> (tag in tags <==> tag in old(tags)) && (tag in tags ==> tags[tag] == old(tags)[tag])
      ensures forall x {:trigger Has(p, content, x)} :: old(Has(p, content, x)) ==> Has(p, content, x)
    {
      hide Has, CollisionFree, Canonical, Holds, RootOf, ReadsBack, Codecs, Keyed, SameRoot;
      ghost var before := Value();
      ok := CheckPinnedTag(repo, c.name, c.version);
      if !ok { return; }
      var blobs := IdentifyLocalBlobs(c.blobs);
      if blobs == None { return false; }
      var root := AddDescriptorToStore(c, mediaType, blobs.value.0, blobs.value.1);
      if root == None { return false; }
      ok := TagIdempotent(root.value, p.tagOf(c.name, c.version));
      SameAsItself(root.value);
      if ok && Codecs(p) { AddedReadsBack(p, before, Value(), c, mediaType); }
    }
  }

  lemma {:induction false} MissingBlob(p: Params, s: Store, blobs: seq<LocalBlob>, i: nat)
    requires i < |blobs| && ResolveReference(p, s, blobs[i].reference) == None
    ensures BlobDescs(p, s, blobs) == None
  {
    if i < |blobs| - 1 { MissingBlob(p, s, blobs[..|blobs| - 1], i); }
  }
}
