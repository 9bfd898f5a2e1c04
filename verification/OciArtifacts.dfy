/** Component versions as OCI artifacts (bindings/go/oci: store_descriptor.go, repository.go): reads that
    are verified node by node, and how far a digest determines what is read. */
module OciArtifacts {
  import opened Graphs
  import DigestPins

  type Bytes = string

  /** An OCI content descriptor. A size that is not positive is unknown. */
  datatype Desc = Desc(mediaType: string, digest: string, size: int)

  datatype Manifest = Manifest(config: Desc, layers: seq<Desc>)
  datatype Index = Index(manifests: seq<Desc>)

  datatype LocalBlob = LocalBlob(reference: string, mediaType: string)

  /** A component descriptor with the local blobs its resources and sources refer to. */
  datatype Component = Component(name: string, version: string, blobs: seq<LocalBlob>, content: string)

  /** The digest of bytes under an algorithm, which digests are valid, and the decoders and encoders of
      the documents. matches compares a normalized pin. */
  datatype Params = Params(
    hash: (string, Bytes) -> string,
    valid: string -> bool,
    tagOf: (string, string) -> string,
    matches: (Component, DigestPins.Digest) -> bool,
    manifestOf: Bytes -> Option<Manifest>, indexOf: Bytes -> Option<Index>,
    configOf: Bytes -> Option<Option<Desc>>, componentOf: (Bytes, string) -> Option<Component>,
    encodeManifest: Manifest -> Bytes, encodeIndex: Index -> Bytes, encodeConfig: Desc -> Bytes, encodeComponent: (Component, string) -> Bytes)

  const indexType: string := "application/vnd.oci.image.index.v1+json"
  const manifestType: string := "application/vnd.oci.image.manifest.v1+json"
  const configType: string := "application/vnd.ocm.software.component.config.v1+json"
  const dockerManifestType: string := "application/vnd.docker.distribution.manifest.v2+json"
  const dockerListType: string := "application/vnd.docker.distribution.manifest.list.v2+json"

  /** A store at one moment: the digest of each tag, what it reports for a digest, and the bytes it
      serves, which need not be those of the digest. */
  datatype Store = Store(tags: map<string, string>, known: map<string, Desc>, content: map<string, Bytes>)

  datatype Fault = NotFound | Invalid | Mismatch | Malformed | Unsupported | OtherVersion

  datatype Result<V> = Ok(value: V) | Err(fault: Fault)

  datatype Stored = Stored(component: Component, manifest: Manifest, index: Option<Index>)

  /** The store at the moment of each step: tags and content may change in between. */
  type Env = nat -> Store

  /** The algorithm a digest names. */
  function AlgorithmOf(digest: string): string {
    if digest == "" || digest[0] == ':' then "" else [digest[0]] + AlgorithmOf(digest[1..])
  }

  /** The bytes have the digest, under the algorithm it names. */
  predicate Digested(p: Params, digest: string, b: Bytes) {
    p.hash(AlgorithmOf(digest), b) == digest
  }

  function FetchVerified(p: Params, s: Store, d: Desc): Result<Bytes> {
    if !p.valid(d.digest) then Err(Invalid)
    else if d.digest !in s.content then Err(NotFound)
    else
      var data := s.content[d.digest];
      if d.size > 0 && |data| != d.size then Err(Mismatch)
      else if !Digested(p, d.digest, data) then Err(Mismatch)
      else Ok(data)
  }

  /** The manifest base stands for, by way of the first manifest if it is an index. */
  function ReadManifest(p: Params, env: Env, t: nat, base: Desc): Result<(Manifest, Option<Index>)> {
    match FetchVerified(p, env(t), base)
    case Err(f) => Err(f)
    case Ok(raw) =>
      if base.mediaType == indexType then
        match p.indexOf(raw)
        case None => Err(Malformed)
        case Some(index) =>
          if |index.manifests| == 0 || index.manifests[0].mediaType != manifestType then Err(Malformed)
          else match FetchVerified(p, env(t + 1), index.manifests[0])
            case Err(f) => Err(f)
            case Ok(inner) => match p.manifestOf(inner)
              case None => Err(Malformed)
              case Some(m) => Ok((m, Some(index)))
      else if base.mediaType == manifestType then
        match p.manifestOf(raw)
        case None => Err(Malformed)
        case Some(m) => Ok((m, None))
      else Err(Unsupported)
  }

  function ReadComponent(p: Params, env: Env, t: nat, m: Manifest): Result<Component> {
    match FetchVerified(p, env(t), m.config)
    case Err(f) => Err(f)
    case Ok(raw) =>
      match p.configOf(raw)
      case None => Err(Malformed)
      case Some(None) => Err(Malformed)
      case Some(Some(layer)) =>
        match FetchVerified(p, env(t + 1), layer)
        case Err(f) => Err(f)
        case Ok(data) => match p.componentOf(data, layer.mediaType)
          case None => Err(Malformed)
          case Some(c) => Ok(c)
  }

  /** getDescriptorFromStore, from what the reference resolved to. */
  function ReadFrom(p: Params, env: Env, t: nat, base: Desc): Result<Stored> {
    match ReadManifest(p, env, t, base)
    case Err(f) => Err(f)
    case Ok((m, index)) => match ReadComponent(p, env, t + 2, m)
      case Err(f) => Err(f)
      case Ok(c) => Ok(Stored(c, m, index))
  }

  // ---- the digest binds what is read ----

  ghost predicate CollisionFree(p: Params) {
    forall d, a, b {:trigger Digested(p, d, a), Digested(p, d, b)} :: Digested(p, d, a) && Digested(p, d, b) ==> a == b
  }

  lemma SameBytes(p: Params, s: Store, d: Desc, s': Store, d': Desc)
    requires CollisionFree(p) && d.digest == d'.digest && FetchVerified(p, s, d).Ok? && FetchVerified(p, s', d').Ok?
    ensures FetchVerified(p, s, d) == FetchVerified(p, s', d')
  {
    assert Digested(p, d.digest, s.content[d.digest]) && Digested(p, d.digest, s'.content[d'.digest]);
  }

  lemma SameComponent(p: Params, env: Env, t: nat, env': Env, t': nat, m: Manifest)
    requires CollisionFree(p) && ReadComponent(p, env, t, m).Ok? && ReadComponent(p, env', t', m).Ok?
    ensures ReadComponent(p, env, t, m) == ReadComponent(p, env', t', m)
  {
    hide FetchVerified;
    SameBytes(p, env(t), m.config, env'(t'), m.config);
    var layer := p.configOf(FetchVerified(p, env(t), m.config).value).value.value;
    SameBytes(p, env(t + 1), layer, env'(t' + 1), layer);
  }

  lemma SameManifest(p: Params, env: Env, t: nat, base: Desc, env': Env, t': nat, base': Desc)
    requires CollisionFree(p) && base.digest == base'.digest && base.mediaType == base'.mediaType
    requires ReadManifest(p, env, t, base).Ok? && ReadManifest(p, env', t', base').Ok?
    ensures ReadManifest(p, env, t, base) == ReadManifest(p, env', t', base')
  {
    hide FetchVerified;
    SameBytes(p, env(t), base, env'(t'), base');
    if base.mediaType == indexType {
      var first := p.indexOf(FetchVerified(p, env(t), base).value).value.manifests[0];
      SameBytes(p, env(t + 1), first, env'(t' + 1), first);
    }
  }

  /** Two reads from one digest that succeed give the same component version, however the store
      changed, if the store reports the same kind of document. */
  lemma SameRead(p: Params, env: Env, t: nat, base: Desc, env': Env, t': nat, base': Desc)
    requires CollisionFree(p) && base.digest == base'.digest && base.mediaType == base'.mediaType
    requires ReadFrom(p, env, t, base).Ok? && ReadFrom(p, env', t', base').Ok?
    ensures ReadFrom(p, env, t, base) == ReadFrom(p, env', t', base')
  {
    hide ReadManifest, ReadComponent, CollisionFree;
    SameManifest(p, env, t, base, env', t', base');
    SameComponent(p, env, t + 2, env', t' + 2, ReadManifest(p, env, t, base).value.0);
  }

  lemma IndexTold(p: Params, env: Env, t: nat, base: Desc)
    requires ReadFrom(p, env, t, base).Ok?
    ensures base.mediaType == if ReadFrom(p, env, t, base).value.index.Some? then indexType else manifestType
  {
    TypesDiffer();
  }

  lemma TypesDiffer()
    ensures indexType != manifestType
  {
    assert |indexType| != |manifestType|;
  }

  /** And only then: of two successful reads from one digest the whole result is the same if and only
      if the store reported the same kind. */
  lemma SameReadExactly(p: Params, env: Env, t: nat, base: Desc, env': Env, t': nat, base': Desc)
    requires CollisionFree(p) && base.digest == base'.digest
    requires ReadFrom(p, env, t, base).Ok? && ReadFrom(p, env', t', base').Ok?
    ensures ReadFrom(p, env, t, base) == ReadFrom(p, env', t', base') <==> base.mediaType == base'.mediaType
  {
    hide ReadFrom, CollisionFree;
    TypesDiffer();
    IndexTold(p, env, t, base);
    IndexTold(p, env', t', base');
    if base.mediaType == base'.mediaType { SameRead(p, env, t, base, env', t', base'); }
  }

  // ---- what a document leads to ----

  /** b is the document d describes. */
  predicate Describes(p: Params, d: Desc, b: Bytes) {
    p.valid(d.digest) && Digested(p, d.digest, b) && (d.size > 0 ==> |b| == d.size)
  }

  /** By way of the config cb and the layer lb the manifest leads to the component. */
  predicate Leads(p: Params, m: Manifest, cb: Bytes, lb: Bytes, c: Component) {
    && Describes(p, m.config, cb) && p.configOf(cb).Some? && p.configOf(cb).value.Some?
    && Describes(p, p.configOf(cb).value.value, lb) && p.componentOf(lb, p.configOf(cb).value.value.mediaType) == Some(c)
  }

  /** Read as a manifest, the document b leads to c. */
  ghost predicate ManifestHolds(p: Params, b: Bytes, c: Component) {
    p.manifestOf(b).Some? && exists cb, lb :: Leads(p, p.manifestOf(b).value, cb, lb, c)
  }

  /** Read as an index, it does: its first manifest is mb. */
  ghost predicate IndexHolds(p: Params, b: Bytes, c: Component) {
    && p.indexOf(b).Some? && p.indexOf(b).value.manifests != [] && p.indexOf(b).value.manifests[0].mediaType == manifestType
    && exists mb :: Describes(p, p.indexOf(b).value.manifests[0], mb) && ManifestHolds(p, mb, c)
  }

  ghost predicate HoldsAs(p: Params, kind: string, b: Bytes, c: Component) {
    if kind == indexType then IndexHolds(p, b, c) else kind == manifestType && ManifestHolds(p, b, c)
  }

  lemma FetchGives(p: Params, s: Store, d: Desc)
    requires FetchVerified(p, s, d).Ok?
    ensures Describes(p, d, FetchVerified(p, s, d).value)
  {
  }

  lemma ComponentLed(p: Params, env: Env, t: nat, b: Bytes, m: Manifest)
    requires p.manifestOf(b) == Some(m) && ReadComponent(p, env, t, m).Ok?
    ensures ManifestHolds(p, b, ReadComponent(p, env, t, m).value)
  {
    hide FetchVerified, Describes;
    var cb := FetchVerified(p, env(t), m.config).value;
    FetchGives(p, env(t), m.config);
    var layer := p.configOf(cb).value.value;
    FetchGives(p, env(t + 1), layer);
    assert Leads(p, m, cb, FetchVerified(p, env(t + 1), layer).value, ReadComponent(p, env, t, m).value);
  }

  /** What is read from a digest is what the document with that digest leads to, read as the kind the
      store reported. */
  lemma ReadHolds(p: Params, env: Env, t: nat, base: Desc)
    requires ReadFrom(p, env, t, base).Ok?
    ensures FetchVerified(p, env(t), base).Ok? && Describes(p, base, FetchVerified(p, env(t), base).value)
    ensures HoldsAs(p, base.mediaType, FetchVerified(p, env(t), base).value, ReadFrom(p, env, t, base).value.component)
  {
    hide FetchVerified, Describes, ReadComponent, ManifestHolds;
    TypesDiffer();
    FetchGives(p, env(t), base);
    var b := FetchVerified(p, env(t), base).value;
    var m := ReadManifest(p, env, t, base).value.0;
    if base.mediaType == indexType {
      var first := p.indexOf(b).value.manifests[0];
      FetchGives(p, env(t + 1), first);
      ComponentLed(p, env, t + 2, FetchVerified(p, env(t + 1), first).value, m);
    } else {
      ComponentLed(p, env, t + 2, b, m);
    }
  }

  // ---- and back: every such document can be read ----

  predicate Serves(content: map<string, Bytes>, digest: string, data: Bytes) {
    digest in content && content[digest] == data
  }

  lemma FetchServes(p: Params, s: Store, d: Desc, b: Bytes)
    requires Describes(p, d, b) && Serves(s.content, d.digest, b)
    ensures FetchVerified(p, s, d) == Ok(b)
  {
  }

  /** Documents are stored under their digests, one after the other. */
  function Serving(content: map<string, Bytes>, docs: seq<(string, Bytes)>): map<string, Bytes>
    decreases |docs|
  {
    if docs == [] then content else Serving(content[docs[0].0 := docs[0].1], docs[1..])
  }

  lemma {:induction false} AllServed(p: Params, content: map<string, Bytes>, docs: seq<(string, Bytes)>, digest: string, b: Bytes)
    requires CollisionFree(p) && (Serves(content, digest, b) || (digest, b) in docs) && Digested(p, digest, b)
    requires forall x :: x in docs ==> Digested(p, x.0, x.1)
    ensures Serves(Serving(content, docs), digest, b)
    decreases |docs|
  {
    if docs != [] {
      assert docs == [docs[0]] + docs[1..] && docs[0] in docs;
      assert forall x :: x in docs[1..] ==> x in docs;
      AllServed(p, content[docs[0].0 := docs[0].1], docs[1..], digest, b);
    }
  }

  lemma ReadLeads(p: Params, env: Env, t: nat, m: Manifest, cb: Bytes, lb: Bytes, c: Component)
    requires Leads(p, m, cb, lb, c)
    requires Serves(env(t).content, m.config.digest, cb) && Serves(env(t + 1).content, p.configOf(cb).value.value.digest, lb)
    ensures ReadComponent(p, env, t, m) == Ok(c)
  {
    hide FetchVerified, Describes, Serves;
    FetchServes(p, env(t), m.config, cb);
    FetchServes(p, env(t + 1), p.configOf(cb).value.value, lb);
  }

  ghost predicate AllHave(p: Params, docs: seq<(string, Bytes)>) {
    forall x :: x in docs ==> Digested(p, x.0, x.1)
  }

  /** The store serves the documents throughout. */
  ghost predicate AlwaysServes(env: Env, docs: seq<(string, Bytes)>) {
    forall u: nat, x {:trigger Serves(env(u).content, x.0, x.1)} :: x in docs ==> Serves(env(u).content, x.0, x.1)
  }

  /** The documents that are enough to read c from the digest as that kind. */
  ghost predicate Enough(p: Params, kind: string, digest: string, c: Component, docs: seq<(string, Bytes)>) {
    forall env: Env, t: nat {:trigger ReadFrom(p, env, t, Desc(kind, digest, 0))} :: AlwaysServes(env, docs) ==>
      ReadFrom(p, env, t, Desc(kind, digest, 0)).Ok? && ReadFrom(p, env, t, Desc(kind, digest, 0)).value.component == c
  }

  lemma Readable(p: Params, kind: string, digest: string, b: Bytes, c: Component) returns (docs: seq<(string, Bytes)>)
    requires p.valid(digest) && Digested(p, digest, b) && HoldsAs(p, kind, b, c)
    ensures Enough(p, kind, digest, c, docs) && AllHave(p, docs)
  {
    hide ReadFrom, AlwaysServes;
    TypesDiffer();
    var mb, md := b, digest;
    if kind == indexType {
      mb :| Describes(p, p.indexOf(b).value.manifests[0], mb) && ManifestHolds(p, mb, c);
      md := p.indexOf(b).value.manifests[0].digest;
    }
    var m := p.manifestOf(mb).value;
    var cb, lb :| Leads(p, m, cb, lb, c);
    docs := [(digest, b), (md, mb), (m.config.digest, cb), (p.configOf(cb).value.value.digest, lb)];
    forall env: Env, t: nat {:trigger ReadFrom(p, env, t, Desc(kind, digest, 0))} | AlwaysServes(env, docs)
      ensures ReadFrom(p, env, t, Desc(kind, digest, 0)).Ok? && ReadFrom(p, env, t, Desc(kind, digest, 0)).value.component == c
    {
      ReadThrough(p, env, t, kind, digest, b, md, mb, cb, lb, c);
    }
  }

  lemma ReadThrough(p: Params, env: Env, t: nat, kind: string, digest: string, b: Bytes, md: string, mb: Bytes, cb: Bytes, lb: Bytes, c: Component)
    requires p.valid(digest) && Digested(p, digest, b) && p.manifestOf(mb).Some? && Leads(p, p.manifestOf(mb).value, cb, lb, c)
    requires p.configOf(cb).Some? && p.configOf(cb).value.Some?
    requires kind == indexType || (kind == manifestType && mb == b)
    requires kind == indexType ==> p.indexOf(b).Some? && p.indexOf(b).value.manifests != []
    requires kind == indexType ==> p.indexOf(b).value.manifests[0].mediaType == manifestType && Describes(p, p.indexOf(b).value.manifests[0], mb)
    requires kind == indexType ==> md == p.indexOf(b).value.manifests[0].digest
    requires AlwaysServes(env, [(digest, b), (md, mb), (p.manifestOf(mb).value.config.digest, cb), (p.configOf(cb).value.value.digest, lb)])
    ensures ReadFrom(p, env, t, Desc(kind, digest, 0)).Ok? && ReadFrom(p, env, t, Desc(kind, digest, 0)).value.component == c
  {
    hide FetchVerified, Serves, Leads, ReadComponent;
    TypesDiffer();
    var base, m, layer := Desc(kind, digest, 0), p.manifestOf(mb).value, p.configOf(cb).value.value;
    var docs := [(digest, b), (md, mb), (m.config.digest, cb), (layer.digest, lb)];
    assert (digest, b) in docs && (md, mb) in docs && (m.config.digest, cb) in docs && (layer.digest, lb) in docs;
    assert Serves(env(t).content, (digest, b).0, (digest, b).1) && Serves(env(t + 1).content, (md, mb).0, (md, mb).1);
    assert Serves(env(t + 2).content, (m.config.digest, cb).0, (m.config.digest, cb).1);
    assert Serves(env(t + 2 + 1).content, (layer.digest, lb).0, (layer.digest, lb).1);
    FetchServes(p, env(t), base, b);
    if kind == indexType { FetchServes(p, env(t + 1), p.indexOf(b).value.manifests[0], mb); }
    ReadLeads(p, env, t + 2, m, cb, lb, c);
  }

  // ---- exactly when a digest determines what is read ----

  /** Two successful reads from the digest, at whatever moments of whatever stores, agree. */
  ghost predicate ReadsAgree(p: Params, digest: string) {
    forall env: Env, t: nat, base: Desc, env': Env, t': nat, base': Desc
      {:trigger ReadFrom(p, env, t, base), ReadFrom(p, env', t', base')} ::
      base.digest == digest && base'.digest == digest && ReadFrom(p, env, t, base).Ok? && ReadFrom(p, env', t', base').Ok? ==>
        ReadFrom(p, env, t, base) == ReadFrom(p, env', t', base')
  }

  /** The document leads to some component as an index, and to some component as a manifest. */
  ghost predicate OfBothKinds(p: Params, b: Bytes) {
    (exists c :: IndexHolds(p, b, c)) && (exists c :: ManifestHolds(p, b, c))
  }

  lemma BothReadable(p: Params, digest: string, b: Bytes, c: Component, c': Component) returns (content: map<string, Bytes>)
    requires CollisionFree(p) && p.valid(digest) && Digested(p, digest, b) && IndexHolds(p, b, c) && ManifestHolds(p, b, c')
    ensures forall env: Env, t: nat {:trigger ReadFrom(p, env, t, Desc(indexType, digest, 0))} :: (forall u: nat {:trigger env(u)} :: env(u).content == content) ==>
      ReadFrom(p, env, t, Desc(indexType, digest, 0)).Ok? && ReadFrom(p, env, t, Desc(indexType, digest, 0)).value.component == c
    ensures forall env: Env, t: nat {:trigger ReadFrom(p, env, t, Desc(manifestType, digest, 0))} :: (forall u: nat {:trigger env(u)} :: env(u).content == content) ==>
      ReadFrom(p, env, t, Desc(manifestType, digest, 0)).Ok? && ReadFrom(p, env, t, Desc(manifestType, digest, 0)).value.component == c'
  {
    hide ReadFrom, IndexHolds, ManifestHolds, Serves, CollisionFree;
    TypesDiffer();
    var docs := Readable(p, indexType, digest, b, c);
    var docs' := Readable(p, manifestType, digest, b, c');
    content := Serving(map[], docs + docs');
    forall x | x in docs || x in docs' ensures Serves(content, x.0, x.1) {
      AllServed(p, map[], docs + docs', x.0, x.1);
    }
  }

  /** A digest of a document determines what is read if and only if the document is not one of both
      kinds: if it does not lead to a component as an index and as a manifest too. */
  lemma AgreeExactly(p: Params, digest: string, b: Bytes)
    requires CollisionFree(p) && p.valid(digest) && Digested(p, digest, b)
    ensures ReadsAgree(p, digest) <==> !OfBothKinds(p, b)
  {
    hide ReadFrom, IndexHolds, ManifestHolds, CollisionFree;
    TypesDiffer();
    if OfBothKinds(p, b) {
      var c :| IndexHolds(p, b, c);
      var c' :| ManifestHolds(p, b, c');
      var content := BothReadable(p, digest, b, c, c');
      var env: Env := t => Store(map[], map[], content);
      var base, base' := Desc(indexType, digest, 0), Desc(manifestType, digest, 0);
      assert ReadFrom(p, env, 0, base).Ok? && ReadFrom(p, env, 0, base').Ok?;
      SameReadExactly(p, env, 0, base, env, 0, base');
    } else {
      forall env: Env, t: nat, base: Desc, env': Env, t': nat, base': Desc {:trigger ReadFrom(p, env, t, base), ReadFrom(p, env', t', base')}
        | base.digest == digest && base'.digest == digest && ReadFrom(p, env, t, base).Ok? && ReadFrom(p, env', t', base').Ok?
        ensures ReadFrom(p, env, t, base) == ReadFrom(p, env', t', base')
      {
        ReadOf(p, env, t, base, b);
        ReadOf(p, env', t', base', b);
        SameReadExactly(p, env, t, base, env', t', base');
      }
    }
  }

  /** A successful read from a digest of b is one of b. */
  lemma ReadOf(p: Params, env: Env, t: nat, base: Desc, b: Bytes)
    requires CollisionFree(p) && Digested(p, base.digest, b) && ReadFrom(p, env, t, base).Ok?
    ensures (base.mediaType == indexType && IndexHolds(p, b, ReadFrom(p, env, t, base).value.component))
      || (base.mediaType == manifestType && ManifestHolds(p, b, ReadFrom(p, env, t, base).value.component))
  {
    hide ReadFrom, IndexHolds, ManifestHolds;
    ReadHolds(p, env, t, base);
    var raw := FetchVerified(p, env(t), base).value;
    assert Digested(p, base.digest, raw);
  }
}
