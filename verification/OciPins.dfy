/** Reads pinned to a digest while tags move (bindings/go/oci/pin.go, bindings/go/repository/pin.go). */
module OciPins {
  import opened Graphs
  import opened OciArtifacts
  import BlobStore
  import DigestPins

  // ---- pinned reads ----

  datatype Pin = Pin(component: string, version: string, digest: string)

  /** A repository, or a view of it that is pinned to an artifact of one component. */
  datatype Repository = Repository(pin: Option<Pin>)

  /** A digest resolves to a descriptor with that digest, and tags name digests. */
  predicate Addressed(s: Store) {
    && (forall d {:trigger s.known[d]} :: d in s.known ==> s.known[d].digest == d)
    && (forall tag {:trigger s.tags[tag]} :: tag in s.tags ==> BlobStore.ValidDigest(s.tags[tag]))
  }

  /** A tag resolves through what the store knows of its digest. */
  function ResolveTag(s: Store, tag: string): Option<Desc> {
    if tag in s.tags && s.tags[tag] in s.known then Some(s.known[s.tags[tag]]) else None
  }

  ghost predicate AlwaysAddressed(env: Env) {
    forall t: nat {:trigger env(t)} :: Addressed(env(t))
  }

  function ReadComponentVersion(p: Params, env: Env, t: nat, repo: Repository, component: string, version: string): Result<Stored> {
    if repo.pin == None || repo.pin.value.component != component then
      match ResolveTag(env(t), p.tagOf(component, version))
      case None => Err(NotFound)
      case Some(base) => ReadFrom(p, env, t + 1, base)
    else
      var pin := repo.pin.value;
      if pin.digest !in env(t).known then Err(NotFound)
      else match ReadFrom(p, env, t + 1, env(t).known[pin.digest])
        case Err(f) => Err(f)
        case Ok(cv) =>
          if cv.component.name != component || (pin.version != "" && cv.component.version != pin.version) || (version != "" && cv.component.version != version)
          then Err(OtherVersion) else Ok(cv)
  }

  function PinComponentVersion(p: Params, component: string, version: string, digest: string): Result<Repository> {
    if p.valid(digest) then Ok(Repository(Some(Pin(component, version, digest)))) else Err(Invalid)
  }

  function HashSupported(name: string): bool {
    var l := DigestPins.Lower(name);
    l == "sha-256" || l == "sha256" || l == "sha-512" || l == "sha512"
  }

  function GetPinnedComponentVersion(p: Params, env: Env, t: nat, repo: Repository, component: string,
      version: string, pin: Option<DigestPins.Digest>): Result<(Repository, Component)> {
    match pin
    case None =>
      (match ReadComponentVersion(p, env, t, repo, component, version)
       case Err(f) => Err(f)
       case Ok(cv) => Ok((repo, cv.component)))
    case Some(d) =>
      if !HashSupported(d.hash) then Err(Unsupported)
      else if d.normalisation == "" then
        match PinComponentVersion(p, component, version, DigestPins.FormatDigestPin(d))
        case Err(f) => Err(f)
        case Ok(view) =>
          match ReadComponentVersion(p, env, t, view, component, version)
          case Err(f) => Err(f)
          case Ok(cv) => Ok((view, cv.component))
      else if version == "" then Err(Invalid)
      else match ReadComponentVersion(p, env, t, repo, component, version)
        case Err(f) => Err(f)
        case Ok(cv) => if p.matches(cv.component, d) then Ok((repo, cv.component)) else Err(Mismatch)
  }

  datatype ByArtifact = ByArtifact(view: Repository, component: Component, pin: Option<DigestPins.Digest>)

  /** On a repository that can be pinned: the tag is resolved once, unless the pin names the artifact. */
  function GetComponentVersionByArtifact(p: Params, env: Env, t: nat, repo: Repository, component: string,
      version: string, pin: Option<DigestPins.Digest>): Result<ByArtifact> {
    if pin.Some? && pin.value.normalisation == "" then
      match GetPinnedComponentVersion(p, env, t, repo, component, version, pin)
      case Err(f) => Err(f)
      case Ok((view, c)) => Ok(ByArtifact(view, c, pin))
    else if version == "" then
      match GetPinnedComponentVersion(p, env, t, repo, component, version, pin)
      case Err(f) => Err(f)
      case Ok((view, c)) => Ok(ByArtifact(view, c, None))
    else if ResolveTag(env(t), p.tagOf(component, version)) == None then Err(NotFound)
    else match DigestPins.ParseDigestPin(ResolveTag(env(t), p.tagOf(component, version)).value.digest)
      case None => Err(Invalid)
      case Some(artifact) =>
        match GetPinnedComponentVersion(p, env, t + 1, repo, component, version, Some(artifact))
        case Err(f) => Err(f)
        case Ok((view, c)) =>
          if pin.Some? && !HashSupported(pin.value.hash) then Err(Unsupported)
          else if pin.Some? && !p.matches(c, pin.value) then Err(Mismatch)
          else Ok(ByArtifact(view, c, Some(artifact)))
  }

  /** At some moment the artifact with the digest was read in full, and held the component. */
  ghost predicate HeldBy(p: Params, env: Env, digest: string, cv: Stored) {
    exists t: nat, base: Desc :: base.digest == digest && ReadFrom(p, env, t, base) == Ok(cv)
  }

  lemma PinnedRead(p: Params, env: Env, t: nat, repo: Repository, component: string, version: string)
    requires AlwaysAddressed(env) && repo.pin.Some? && repo.pin.value.component == component
    requires ReadComponentVersion(p, env, t, repo, component, version).Ok?
    ensures var cv := ReadComponentVersion(p, env, t, repo, component, version).value;
      HeldBy(p, env, repo.pin.value.digest, cv) && cv.component.name == component
      && (version != "" ==> cv.component.version == version) && (repo.pin.value.version != "" ==> cv.component.version == repo.pin.value.version)
  {
    hide ReadFrom;
    var base := env(t).known[repo.pin.value.digest];
    assert Addressed(env(t));
    assert base.digest == repo.pin.value.digest;
  }

  lemma TagParsed(p: Params, env: Env, t: nat, component: string, version: string)
    requires AlwaysAddressed(env)
    ensures ResolveTag(env(t), p.tagOf(component, version)).Some? ==>
      var digest := ResolveTag(env(t), p.tagOf(component, version)).value.digest;
      p.tagOf(component, version) in env(t).tags && digest == env(t).tags[p.tagOf(component, version)]
      && (DigestPins.ParseDigestPin(digest).Some? ==>
        DigestPins.ParseDigestPin(digest).value.normalisation == "" && DigestPins.FormatDigestPin(DigestPins.ParseDigestPin(digest).value) == digest)
  {
    var tag := p.tagOf(component, version);
    if ResolveTag(env(t), tag).Some? {
      assert Addressed(env(t));
      var digest := env(t).tags[tag];
      assert env(t).known[digest].digest == digest && BlobStore.ValidDigest(digest);
      hide DigestPins.ParseDigestPin, DigestPins.FormatDigestPin, BlobStore.ValidDigest;
      if DigestPins.ParseDigestPin(digest).Some? { DigestPins.OciDigestPin(digest); }
    }
  }

  /** The pin that is returned names the artifact that holds the component version returned, and the
      view returned is pinned to it; the tag is not consulted again. */
  lemma ReturnsArtifactRead(p: Params, env: Env, t: nat, repo: Repository, component: string, version: string, pin: Option<DigestPins.Digest>)
    requires AlwaysAddressed(env) && GetComponentVersionByArtifact(p, env, t, repo, component, version, pin).Ok?
    ensures var r := GetComponentVersionByArtifact(p, env, t, repo, component, version, pin).value;
      r.pin.Some? ==>
        && r.pin.value.normalisation == "" && r.view == Repository(Some(Pin(component, version, DigestPins.FormatDigestPin(r.pin.value))))
        && r.component.name == component && (version != "" ==> r.component.version == version)
        && exists cv :: HeldBy(p, env, DigestPins.FormatDigestPin(r.pin.value), cv) && cv.component == r.component
    ensures (pin.Some? && pin.value.normalisation == "") || version != "" ==>
      GetComponentVersionByArtifact(p, env, t, repo, component, version, pin).value.pin.Some?
    ensures (pin == None || pin.value.normalisation != "") && version != "" ==>
      var artifact := GetComponentVersionByArtifact(p, env, t, repo, component, version, pin).value.pin.value;
      p.tagOf(component, version) in env(t).tags && DigestPins.FormatDigestPin(artifact) == env(t).tags[p.tagOf(component, version)]
    ensures pin.Some? && pin.value.normalisation != "" ==>
      p.matches(GetComponentVersionByArtifact(p, env, t, repo, component, version, pin).value.component, pin.value)
  {
    hide ReadComponentVersion, DigestPins.FormatDigestPin, DigestPins.ParseDigestPin, HashSupported, HeldBy;
    TagParsed(p, env, t, component, version);
    var r := GetComponentVersionByArtifact(p, env, t, repo, component, version, pin).value;
    if r.pin.Some? {
      var artifact := r.pin.value;
      var at := if pin.Some? && pin.value.normalisation == "" then t else t + 1;
      assert GetPinnedComponentVersion(p, env, at, repo, component, version, r.pin) == Ok((r.view, r.component));
      PinnedRead(p, env, at, r.view, component, version);
    }
  }

  /** The tag, or the pinned digest, stands for base at the moment t; what is read from there is cv. */
  ghost predicate ReadAt(p: Params, env: Env, t: nat, repo: Repository, component: string, version: string, cv: Stored) {
    if repo.pin.Some? && repo.pin.value.component == component
    then repo.pin.value.digest in env(t).known && ReadFrom(p, env, t + 1, env(t).known[repo.pin.value.digest]) == Ok(cv)
    else
      var tag := p.tagOf(component, version);
      tag in env(t).tags && env(t).tags[tag] in env(t).known && ReadFrom(p, env, t + 1, env(t).known[env(t).tags[tag]]) == Ok(cv)
  }

  /** Through a pinned view only the component version that was pinned and asked for will do. */
  predicate Wanted(repo: Repository, component: string, version: string, c: Component) {
    repo.pin.Some? && repo.pin.value.component == component ==>
      c.name == component && (version == "" || c.version == version) && (repo.pin.value.version == "" || c.version == repo.pin.value.version)
  }

  /** A read gives cv if and only if the tag or the pin leads to it and it is what was wanted. */
  lemma ReadsExactly(p: Params, env: Env, t: nat, repo: Repository, component: string, version: string, cv: Stored)
    ensures ReadComponentVersion(p, env, t, repo, component, version) == Ok(cv) <==>
      ReadAt(p, env, t, repo, component, version, cv) && Wanted(repo, component, version, cv.component)
  {
    hide ReadFrom;
  }

  ghost predicate SomeRead(p: Params, env: Env, t: nat, repo: Repository, component: string, version: string, c: Component) {
    exists cv :: ReadAt(p, env, t, repo, component, version, cv) && cv.component == c && Wanted(repo, component, version, c)
  }

  lemma SomeReadIs(p: Params, env: Env, t: nat, repo: Repository, component: string, version: string, c: Component)
    ensures SomeRead(p, env, t, repo, component, version, c) <==>
      ReadComponentVersion(p, env, t, repo, component, version).Ok? && ReadComponentVersion(p, env, t, repo, component, version).value.component == c
  {
    hide ReadComponentVersion, ReadAt, Wanted;
    if ReadComponentVersion(p, env, t, repo, component, version).Ok? {
      ReadsExactly(p, env, t, repo, component, version, ReadComponentVersion(p, env, t, repo, component, version).value);
    }
    forall cv ensures ReadComponentVersion(p, env, t, repo, component, version) == Ok(cv) <==>
      ReadAt(p, env, t, repo, component, version, cv) && Wanted(repo, component, version, cv.component)
    {
      ReadsExactly(p, env, t, repo, component, version, cv);
    }
  }

  predicate NamesSha(hash: string) {
    DigestPins.Lower(hash) in {"sha256", "sha-256", "sha512", "sha-512"}
  }

  /** The view pinned to the digest, if that is valid. */
  function View(component: string, version: string, pin: DigestPins.Digest): Repository {
    Repository(Some(Pin(component, version, DigestPins.FormatDigestPin(pin))))
  }

  /** Exactly what is returned for a pin. Without one it is what the repository holds. An OCI digest pin
      is served through a view pinned to it. A normalised pin needs a version, and the component version
      that the repository holds must match it. */
  lemma PinnedExactly(p: Params, env: Env, t: nat, repo: Repository, component: string, version: string, pin: Option<DigestPins.Digest>,
      view: Repository, c: Component)
    ensures pin == None ==>
      (GetPinnedComponentVersion(p, env, t, repo, component, version, pin) == Ok((view, c)) <==> view == repo && SomeRead(p, env, t, repo, component, version, c))
    ensures pin.Some? && pin.value.normalisation == "" ==>
      (GetPinnedComponentVersion(p, env, t, repo, component, version, pin) == Ok((view, c)) <==>
        (NamesSha(pin.value.hash) && p.valid(DigestPins.FormatDigestPin(pin.value))
        && view == View(component, version, pin.value) && SomeRead(p, env, t, view, component, version, c)))
    ensures pin.Some? && pin.value.normalisation != "" ==>
      (GetPinnedComponentVersion(p, env, t, repo, component, version, pin) == Ok((view, c)) <==>
        NamesSha(pin.value.hash) && version != "" && p.matches(c, pin.value) && view == repo && SomeRead(p, env, t, repo, component, version, c))
  {
    hide ReadComponentVersion, SomeRead, DigestPins.FormatDigestPin, DigestPins.Lower;
    SomeReadIs(p, env, t, repo, component, version, c);
    if pin.Some? { SomeReadIs(p, env, t, View(component, version, pin.value), component, version, c); }
  }

  /** The tag resolves to a digest that is the pin. */
  predicate TagNames(s: Store, tag: string, pin: Option<DigestPins.Digest>) {
    tag in s.tags && s.tags[tag] in s.known && DigestPins.ParseDigestPin(s.known[s.tags[tag]].digest) == pin
  }

  /** What is returned by artifact: with an OCI digest pin, or without a version, what the pin gives.
      Otherwise the version tag is resolved, the artifact it names must have a digest that can be a pin,
      and the component version read from there must match the pin if there is one. */
  lemma ByArtifactExactly(p: Params, env: Env, t: nat, repo: Repository, component: string, version: string, pin: Option<DigestPins.Digest>, r: ByArtifact)
    ensures (pin.Some? && pin.value.normalisation == "") || version == "" ==>
      (GetComponentVersionByArtifact(p, env, t, repo, component, version, pin) == Ok(r) <==>
        (GetPinnedComponentVersion(p, env, t, repo, component, version, pin) == Ok((r.view, r.component))
        && r.pin == if pin.Some? && pin.value.normalisation == "" then pin else None))
    ensures !(pin.Some? && pin.value.normalisation == "") && version != "" ==>
      (GetComponentVersionByArtifact(p, env, t, repo, component, version, pin) == Ok(r) <==>
        (r.pin.Some? && TagNames(env(t), p.tagOf(component, version), r.pin) && GetPinnedComponentVersion(p, env, t + 1, repo, component, version, r.pin) == Ok((r.view, r.component))
        && (pin.Some? ==> NamesSha(pin.value.hash) && p.matches(r.component, pin.value))))
  {
    hide GetPinnedComponentVersion, DigestPins.ParseDigestPin, DigestPins.Lower;
  }

  /** The document leads to two different versions of the component, one as an index and one as a
      manifest, both of the version asked for. */
  ghost predicate TwoFaced(p: Params, b: Bytes, component: string, version: string) {
    exists c, c' {:trigger IndexHolds(p, b, c), ManifestHolds(p, b, c')} :: IndexHolds(p, b, c) && ManifestHolds(p, b, c') && c != c'
      && Fits(c, component, version) && Fits(c', component, version)
  }

  predicate Fits(c: Component, component: string, version: string) {
    c.name == component && (version == "" || c.version == version)
  }

  lemma HeldFits(p: Params, env: Env, digest: string, cv: Stored, b: Bytes)
    requires CollisionFree(p) && HeldBy(p, env, digest, cv) && Digested(p, digest, b)
    ensures IndexHolds(p, b, cv.component) || ManifestHolds(p, b, cv.component)
  {
    hide ReadFrom, IndexHolds, ManifestHolds, CollisionFree;
    var t: nat, base: Desc :| base.digest == digest && ReadFrom(p, env, t, base) == Ok(cv);
    ReadOf(p, env, t, base, b);
  }

  lemma HeldSame(p: Params, b: Bytes, c: Component, c': Component)
    requires CollisionFree(p)
    ensures IndexHolds(p, b, c) && IndexHolds(p, b, c') ==> c == c'
    ensures ManifestHolds(p, b, c) && ManifestHolds(p, b, c') ==> c == c'
  {
    ManifestSame(p, b, c, c');
    if IndexHolds(p, b, c) && IndexHolds(p, b, c') {
      var mb :| Describes(p, p.indexOf(b).value.manifests[0], mb) && ManifestHolds(p, mb, c);
      var mb' :| Describes(p, p.indexOf(b).value.manifests[0], mb') && ManifestHolds(p, mb', c');
      var d := p.indexOf(b).value.manifests[0].digest;
      assert Digested(p, d, mb) && Digested(p, d, mb');
      ManifestSame(p, mb, c, c');
    }
  }

  lemma ManifestSame(p: Params, b: Bytes, c: Component, c': Component)
    requires CollisionFree(p)
    ensures ManifestHolds(p, b, c) && ManifestHolds(p, b, c') ==> c == c'
  {
    if ManifestHolds(p, b, c) && ManifestHolds(p, b, c') {
      var m := p.manifestOf(b).value;
      var cb, lb :| Leads(p, m, cb, lb, c);
      var cb', lb' :| Leads(p, m, cb', lb', c');
      assert Digested(p, m.config.digest, cb) && Digested(p, m.config.digest, cb');
      var d := p.configOf(cb).value.value.digest;
      assert Digested(p, d, lb) && Digested(p, d, lb');
    }
  }

  /** One read by artifact and one later read through the view it returned, of the same component:
      if both succeed they give the same. */
  ghost predicate LaterReadAgrees(p: Params, digest: string, env: Env, t: nat, repo: Repository, component: string,
      version: string, pin: Option<DigestPins.Digest>, later: nat, version': string)
  {
    var r := GetComponentVersionByArtifact(p, env, t, repo, component, version, pin);
    AlwaysAddressed(env) && r.Ok? && r.value.pin.Some? && DigestPins.FormatDigestPin(r.value.pin.value) == digest
    && ReadComponentVersion(p, env, later, r.value.view, component, version').Ok? ==>
      ReadComponentVersion(p, env, later, r.value.view, component, version').value.component == r.value.component
  }

  /** Every later read of the component through the view, at whatever moment and wherever the tags
      have moved, gives the component version that was returned, or fails, unless the document with
      the pinned digest has two faces. */
  lemma LaterReadsAgree(p: Params, digest: string, b: Bytes, env: Env, t: nat, repo: Repository, component: string, version: string,
      pin: Option<DigestPins.Digest>, later: nat, version': string)
    requires CollisionFree(p) && Digested(p, digest, b) && !TwoFaced(p, b, component, version)
    ensures LaterReadAgrees(p, digest, env, t, repo, component, version, pin, later, version')
  {
    hide ReadComponentVersion, GetComponentVersionByArtifact, CollisionFree, DigestPins.FormatDigestPin, IndexHolds, ManifestHolds, HeldBy;
    var r := GetComponentVersionByArtifact(p, env, t, repo, component, version, pin);
    if AlwaysAddressed(env) && r.Ok? && r.value.pin.Some? && DigestPins.FormatDigestPin(r.value.pin.value) == digest
      && ReadComponentVersion(p, env, later, r.value.view, component, version').Ok?
    {
      ReturnsArtifactRead(p, env, t, repo, component, version, pin);
      PinnedRead(p, env, later, r.value.view, component, version');
      var cv :| HeldBy(p, env, digest, cv) && cv.component == r.value.component;
      var cv' := ReadComponentVersion(p, env, later, r.value.view, component, version').value;
      HeldFits(p, env, digest, cv, b);
      HeldFits(p, env, digest, cv', b);
      HeldSame(p, b, cv.component, cv'.component);
    }
  }

  lemma ParsedSupported(d: string)
    requires DigestPins.ParseDigestPin(d).Some?
    ensures HashSupported(DigestPins.ParseDigestPin(d).value.hash)
  {
    hide DigestPins.Lower, DigestPins.Parts;
    SupportedNames();
  }

  lemma SupportedNames()
    ensures HashSupported(DigestPins.sha256) && HashSupported(DigestPins.sha512)
  {
    assert DigestPins.Lower("SHA-256") == "sha-256" && DigestPins.Lower("SHA-512") == "sha-512";
  }

  /** A store that serves the documents throughout, and first reports one kind for the digest, then
      the other. */
  function Changing(digest: string, content: map<string, Bytes>): Env {
    t => Store(map[], map[digest := Desc(if t == 0 then indexType else manifestType, digest, 0)], content)
  }

  lemma TwoFacedDisagrees(p: Params, d: string, b: Bytes, component: string, version: string)
    requires CollisionFree(p) && Digested(p, d, b) && BlobStore.ValidDigest(d) && p.valid(d) && DigestPins.ParseDigestPin(d).Some?
    requires TwoFaced(p, b, component, version)
    ensures exists env: Env :: !LaterReadAgrees(p, d, env, 0, Repository(None), component, version, DigestPins.ParseDigestPin(d), 1, version)
  {
    hide ReadFrom, CollisionFree, DigestPins.ParseDigestPin, DigestPins.FormatDigestPin, IndexHolds, ManifestHolds, BlobStore.ValidDigest, HashSupported;
    var pin := DigestPins.ParseDigestPin(d).value;
    DigestPins.OciDigestPin(d);
    ParsedSupported(d);
    var c, c' :| IndexHolds(p, b, c) && ManifestHolds(p, b, c') && c != c' && Fits(c, component, version) && Fits(c', component, version);
    var content := BothReadable(p, d, b, c, c');
    var env := Changing(d, content);
    assert AlwaysAddressed(env);
    var view := Repository(Some(Pin(component, version, d)));
    assert ReadFrom(p, env, 1, Desc(indexType, d, 0)).Ok? && ReadFrom(p, env, 2, Desc(manifestType, d, 0)).Ok?;
    assert ReadComponentVersion(p, env, 0, view, component, version) == ReadFrom(p, env, 1, Desc(indexType, d, 0));
    assert ReadComponentVersion(p, env, 1, view, component, version) == ReadFrom(p, env, 2, Desc(manifestType, d, 0));
    assert GetPinnedComponentVersion(p, env, 0, Repository(None), component, version, Some(pin)) == Ok((view, c));
    assert GetComponentVersionByArtifact(p, env, 0, Repository(None), component, version, Some(pin)) == Ok(ByArtifact(view, c, Some(pin)));
    assert !LaterReadAgrees(p, d, env, 0, Repository(None), component, version, DigestPins.ParseDigestPin(d), 1, version);
  }

  /** A pin to a digest of a document binds all later reads if and only if the document does not
      have two faces. */
  lemma PinBindsExactly(p: Params, digest: string, b: Bytes, component: string, version: string)
    requires CollisionFree(p) && Digested(p, digest, b) && BlobStore.ValidDigest(digest) && p.valid(digest) && DigestPins.ParseDigestPin(digest).Some?
    ensures (forall env: Env, t: nat, repo, pin, later: nat, version' ::
      LaterReadAgrees(p, digest, env, t, repo, component, version, pin, later, version')) <==> !TwoFaced(p, b, component, version)
  {
    hide LaterReadAgrees, CollisionFree, TwoFaced, DigestPins.ParseDigestPin, BlobStore.ValidDigest;
    if TwoFaced(p, b, component, version) {
      TwoFacedDisagrees(p, digest, b, component, version);
    } else {
      forall env: Env, t: nat, repo, pin, later: nat, version'
        ensures LaterReadAgrees(p, digest, env, t, repo, component, version, pin, later, version')
      {
        LaterReadsAgree(p, digest, b, env, t, repo, component, version, pin, later, version');
      }
    }
  }

  // ---- a document with two faces ----

  const zeros: string := seq(64, i => '0')
  const twoFacedDigest: string := "sha256:" + zeros

  /** A document "x" that is an index of "m" as well as a manifest with the config "a"; its digest is
      an OCI digest. */
  function TwoFacedParams(p: Params): Params {
    p.(hash := (algorithm: string, b: Bytes) => if b == "x" then twoFacedDigest else "-" + b, valid := (d: string) => d != "",
       indexOf := (b: Bytes) => if b == "x" then Some(Index([Desc(manifestType, "-m", 0)])) else None,
       manifestOf := (b: Bytes) =>
         if b == "x" then Some(Manifest(Desc(configType, "-a", 0), []))
         else if b == "m" then Some(Manifest(Desc(configType, "-b", 0), [])) else None,
       configOf := (b: Bytes) => if b == "a" then Some(Some(Desc("", "-c", 0))) else if b == "b" then Some(Some(Desc("", "-d", 0))) else None,
       componentOf := (b: Bytes, mediaType: string) => Some(Component("n", "v", [], b)))
  }

  lemma TwoFacedDigest()
    ensures BlobStore.ValidDigest(twoFacedDigest) && DigestPins.ParseDigestPin(twoFacedDigest).Some?
  {
    var d := twoFacedDigest;
    assert d[..6] == "sha256" && d[6] == ':' && |d| == 71;
    assert forall i {:trigger d[i]} :: 7 <= i < |d| ==> d[i] == zeros[i - 7] && zeros[i - 7] == '0';
    assert "sha256"[3] != "sha384"[3];
    DigestPins.OciDigestParses(d);
  }

  lemma TwoFacedCollisionFree(p: Params)
    ensures CollisionFree(TwoFacedParams(p))
  {
    var q := TwoFacedParams(p);
    assert twoFacedDigest[0] == 's';
    forall d, a, b {:trigger Digested(q, d, a), Digested(q, d, b)} | Digested(q, d, a) && Digested(q, d, b) ensures a == b {
      if a != "x" { assert d[0] == '-' && d[1..] == a; }
      if b != "x" { assert d[0] == '-' && d[1..] == b; }
    }
  }

  lemma TwoFacedDigested(p: Params)
    ensures var q := TwoFacedParams(p);
      && Digested(q, twoFacedDigest, "x") && Digested(q, "-m", "m") && Digested(q, "-a", "a") && Digested(q, "-b", "b")
      && Digested(q, "-c", "c") && Digested(q, "-d", "d")
  {
    hide AlgorithmOf;
    assert "m"[0] != "x"[0] && "a"[0] != "x"[0] && "b"[0] != "x"[0] && "c"[0] != "x"[0] && "d"[0] != "x"[0];
    assert "-" + "m" == "-m" && "-" + "a" == "-a" && "-" + "b" == "-b" && "-" + "c" == "-c" && "-" + "d" == "-d";
  }

  lemma TwoFacedHolds(p: Params)
    ensures TwoFaced(TwoFacedParams(p), "x", "n", "v")
  {
    hide Digested;
    var q := TwoFacedParams(p);
    TwoFacedDigested(p);
    var c, c' := Component("n", "v", [], "d"), Component("n", "v", [], "c");
    assert "x"[0] != "m"[0] && "a"[0] != "b"[0] && "c"[0] != "d"[0];
    assert Leads(q, q.manifestOf("x").value, "a", "c", c');
    assert Leads(q, q.manifestOf("m").value, "b", "d", c);
    assert ManifestHolds(q, "x", c') && ManifestHolds(q, "m", c);
    assert Describes(q, q.indexOf("x").value.manifests[0], "m");
    assert IndexHolds(q, "x", c);
    assert c.content != c'.content;
  }

  /** With such a document one pin of one artifact stands for two component versions: there is a store
      in which a later read through the view returned gives another one. */
  lemma KindDecides(p: Params)
    ensures CollisionFree(TwoFacedParams(p)) && BlobStore.ValidDigest(twoFacedDigest)
    ensures Digested(TwoFacedParams(p), twoFacedDigest, "x")
    ensures exists env: Env :: (AlwaysAddressed(env)
      && !LaterReadAgrees(TwoFacedParams(p), twoFacedDigest, env, 0, Repository(None), "n", "v", DigestPins.ParseDigestPin(twoFacedDigest), 1, "v"))
  {
    hide LaterReadAgrees, TwoFaced, CollisionFree, BlobStore.ValidDigest, DigestPins.ParseDigestPin;
    TwoFacedDigest();
    TwoFacedCollisionFree(p);
    TwoFacedDigested(p);
    TwoFacedHolds(p);
    TwoFacedDisagrees(TwoFacedParams(p), twoFacedDigest, "x", "n", "v");
    var env: Env :| !LaterReadAgrees(TwoFacedParams(p), twoFacedDigest, env, 0, Repository(None), "n", "v", DigestPins.ParseDigestPin(twoFacedDigest), 1, "v");
    DisagreeAddressed(TwoFacedParams(p), twoFacedDigest, env);
  }

  lemma DisagreeAddressed(p: Params, digest: string, env: Env)
    requires !LaterReadAgrees(p, digest, env, 0, Repository(None), "n", "v", DigestPins.ParseDigestPin(digest), 1, "v")
    ensures AlwaysAddressed(env)
  {
  }
}
