/**
 What a resolve returns and what it leaves behind, told from the text of the reference, the answers of the registry
 and the files of the cache.
 */
module ArtifactOutcomes {
  import opened Ordering
  import opened Snapshots
  import opened TextForms
  import opened ArtifactCache

  // ---- references ----

  predicate HexText(s: string) {
    && |s| == 64
    && forall i :: 0 <= i < 64 ==>
      48 <= s[i] as int <= 57 || 97 <= s[i] as int <= 102 || 65 <= s[i] as int <= 70
  }

  /** The reference is a location, a pin marker and 64 hexadecimal characters, which count in lower case. */
  ghost predicate Refers(uri: string, location: string, pin: string) {
    exists hex :: uri == location + "@sha256:" + hex && HexText(hex) && Lowered(hex, pin)
  }

  predicate NoPin(uri: string) {
    forall i :: 0 <= i <= |uri| ==> !("@sha256:" <= uri[i..])
  }

  predicate Starts(uri: string, scheme: Scheme) {
    match scheme
    case Https => "https://" <= uri
    case Http => "http://" <= uri
    case File => "file://" <= uri
    case Oci => "oci://" <= uri
  }

  lemma SchemeExactly(uri: string, scheme: Scheme)
    ensures SchemeOf(uri) == Some(scheme) <==> Starts(uri, scheme)
  {
    var n := |uri|;
    assert n >= 8 && "https://" <= uri ==> uri[0] == 'h' && uri[4] == 's';
    assert n >= 7 && "http://" <= uri ==> uri[0] == 'h' && uri[4] == ':';
    assert n >= 7 && "file://" <= uri ==> uri[0] == 'f';
    assert n >= 6 && "oci://" <= uri ==> uri[0] == 'o';
  }

  lemma HexIsText(s: string)
    ensures IsHexDigest(s) <==> HexText(s)
  {
    if IsHexDigest(s) {
      forall i | 0 <= i < 64 ensures IsHex(s[i]) { assert s[i] in s; }
    }
  }

  /** A reference is accepted exactly in these two forms, and rejected otherwise. */
  lemma ParsedExactly(uri: string, location: string, scheme: Scheme, pin: string)
    ensures Parse(uri) == Ok(Reference(location, scheme, Some(pin))) <==>
      Starts(uri, scheme) && Refers(uri, location, pin)
    ensures Parse(uri) == Ok(Reference(uri, File, None)) <==> Starts(uri, File) && NoPin(uri)
    ensures Parse(uri).Err? ==> Parse(uri).error == InvalidUri
  {
    ParseExactly(uri, location, scheme, pin);
    ParseExactly(uri, uri, File, pin);
    SchemeExactly(uri, scheme);
    SchemeExactly(uri, File);
    forall hex ensures PinnedAs(uri, location, hex) && Lower(hex) == pin <==>
      uri == location + "@sha256:" + hex && HexText(hex) && Lowered(hex, pin)
    {
      HexIsText(hex);
      LowerExactly(hex, pin);
    }
    hide Parse, SchemeOf, Lower, Lowered, HexText, IsHexDigest, Starts;
    if Refers(uri, location, pin) {
      var hex :| uri == location + "@sha256:" + hex && HexText(hex) && Lowered(hex, pin);
      assert PinnedAs(uri, location, hex) && Lower(hex) == pin;
    }
    ErrorIsInvalid(uri);
  }

  lemma ErrorIsInvalid(uri: string)
    ensures Parse(uri).Err? ==> Parse(uri).error == InvalidUri
  {
    hide SchemeOf, LastPin, IsHexDigest;
  }

  // ---- repositories ----

  ghost function Repeated(prefix: string, k: nat): string {
    if k == 0 then "" else prefix + Repeated(prefix, k - 1)
  }

  /** `rest` is the text without the prefix, however often it stands there. */
  ghost predicate Stripped(s: string, prefix: string, rest: string) {
    !(prefix <= rest) && exists k: nat :: s == Repeated(prefix, k) + rest
  }

  lemma {:induction false} StrippedIs(s: string, prefix: string)
    requires prefix != ""
    ensures Stripped(s, prefix, TrimStartMatches(s, prefix))
    decreases |s|
  {
    if prefix <= s {
      var rest := s[|prefix|..];
      StrippedIs(rest, prefix);
      var k: nat :| rest == Repeated(prefix, k) + TrimStartMatches(rest, prefix);
      assert s == prefix + rest;
      assert s == Repeated(prefix, k + 1) + TrimStartMatches(s, prefix);
    } else {
      assert s == Repeated(prefix, 0) + s;
    }
  }

  lemma {:induction false} StrippedIsUnique(k: nat, prefix: string, rest: string)
    requires prefix != "" && !(prefix <= rest)
    ensures TrimStartMatches(Repeated(prefix, k) + rest, prefix) == rest
  {
    var s := Repeated(prefix, k) + rest;
    if k > 0 {
      var inner := Repeated(prefix, k - 1) + rest;
      assert s == prefix + inner;
      assert s[|prefix|..] == inner;
      StrippedIsUnique(k - 1, prefix, rest);
    } else {
      assert s == rest;
    }
  }

  lemma StrippedExactly(s: string, prefix: string, rest: string)
    requires prefix != ""
    ensures Stripped(s, prefix, rest) <==> rest == TrimStartMatches(s, prefix)
  {
    hide TrimStartMatches, Repeated;
    StrippedIs(s, prefix);
    if Stripped(s, prefix, rest) {
      var k: nat :| s == Repeated(prefix, k) + rest;
      StrippedIsUnique(k, prefix, rest);
    }
  }

  /** A registry without a slash, a slash, and a repository. */
  ghost predicate InRegistry(location: string) {
    exists registry: string, repository: string ::
      '/' !in registry && repository != "" && Stripped(location, "oci://", registry + "/" + repository)
  }

  lemma RepositoryExactly(location: string)
    ensures IsRepository(location) <==> InRegistry(location)
  {
    hide TrimStartMatches, Stripped;
    var rest := TrimStartMatches(location, "oci://");
    if IsRepository(location) {
      var i :| 0 <= i < |rest| - 1 && rest[i] == '/' && '/' !in rest[..i];
      assert rest == rest[..i] + "/" + rest[i + 1..];
      StrippedExactly(location, "oci://", rest);
    }
    if InRegistry(location) {
      var registry: string, repository: string :|
        '/' !in registry && repository != "" && Stripped(location, "oci://", registry + "/" + repository);
      StrippedExactly(location, "oci://", registry + "/" + repository);
      assert rest[|registry|] == '/' && rest[..|registry|] == registry;
    }
  }

  // ---- what is fetched ----

  /** The body of an answer, of which no more than two gibibytes are read. */
  ghost predicate Reads(net: Network, r: Request, body: Bytes) {
    && net(r).Some?
    && if |net(r).value| <= 2 * 1024 * 1024 * 1024 then body == net(r).value
       else |body| == 2 * 1024 * 1024 * 1024 && body <= net(r).value
  }

  lemma BodyExactly(net: Network, r: Request, body: Bytes)
    ensures Body(net, r) == Some(body) <==> Reads(net, r, body)
    ensures Body(net, r).None? <==> net(r).None?
  {
    if |body| == MAX_ARTIFACT_BYTES && net(r).Some? && body <= net(r).value {
      assert body == net(r).value[..MAX_ARTIFACT_BYTES];
    }
  }

  /** The manifest lists one layer and gives its digest. */
  ghost predicate NamesOnly(m: Option<Manifest>, layer: string) {
    m == Some(Manifest(Some([Some("sha256:" + layer)])))
  }

  lemma LayerExactly(c: Crypto, manifest: Bytes, layer: string)
    ensures LayerOf(c, manifest) == Some(layer) <==> NamesOnly(c.manifest(manifest), layer)
  {
    var m := c.manifest(manifest);
    if LayerOf(c, manifest) == Some(layer) {
      var digest := m.value.layers.value[0].value;
      assert digest == "sha256:" + layer;
      assert m.value.layers.value == [Some(digest)];
    }
    if NamesOnly(m, layer) {
      assert ("sha256:" + layer)[7..] == layer;
    }
  }

  /** The registry answers with a manifest that has the pin's digest. */
  ghost predicate GivesManifest(c: Crypto, net: Network, location: string, pin: string, manifest: Bytes) {
    InRegistry(location) && Reads(net, ManifestAt(location, pin), manifest) && c.hash(manifest) == pin
  }

  /** No trust root is configured, or the pin is signed. */
  ghost predicate SignatureHolds(c: Crypto, net: Network, location: string, pin: string, verify: bool) {
    verify ==> exists s :: Reads(net, SignatureAt(location, pin), s) && c.signed(pin, s)
  }

  lemma TrustedExactly(c: Crypto, net: Network, location: string, pin: string, verify: bool)
    ensures Trusted(c, net, location, pin, verify) <==> SignatureHolds(c, net, location, pin, verify)
  {
    hide Body, Reads;
    var r := SignatureAt(location, pin);
    if Body(net, r).Some? {
      BodyExactly(net, r, Body(net, r).value);
    }
    forall s | Reads(net, r, s) ensures Body(net, r) == Some(s) {
      BodyExactly(net, r, s);
    }
  }

  /** The whole chain: pin, manifest, signature, its only layer, and bytes with the layer's digest. */
  ghost predicate Chain(
    c: Crypto, net: Network, location: string, pin: string, verify: bool, bytes: Bytes, layer: string
  ) {
    exists manifest ::
      && GivesManifest(c, net, location, pin, manifest)
      && SignatureHolds(c, net, location, pin, verify)
      && NamesOnly(c.manifest(manifest), layer)
      && Reads(net, BlobAt(location, layer), bytes) && c.hash(bytes) == layer
  }

  /** An oci fetch succeeds exactly along the whole chain, and an untrusted or wrong link is reported as what it is. */
  lemma FetchOciExactly(c: Crypto, net: Network, location: string, pin: string, verify: bool, d: Download)
    ensures FetchOci(c, net, location, pin, verify) == Ok(d) <==>
      d.layer.Some? && Chain(c, net, location, pin, verify, d.bytes, d.layer.value)
    ensures FetchOci(c, net, location, pin, verify) == Err(InvalidUri) <==> !InRegistry(location)
    ensures FetchOci(c, net, location, pin, verify) == Err(SignatureRejected) <==>
      (exists m :: GivesManifest(c, net, location, pin, m)) && !SignatureHolds(c, net, location, pin, verify)
  {
    hide Body, Reads, IsRepository, InRegistry, LayerOf, Trusted, SignatureHolds, NamesOnly;
    RepositoryExactly(location);
    TrustedExactly(c, net, location, pin, verify);
    var body := Body(net, ManifestAt(location, pin));
    forall m ensures Reads(net, ManifestAt(location, pin), m) <==> body == Some(m) {
      BodyExactly(net, ManifestAt(location, pin), m);
    }
    if body.Some? {
      var manifest := body.value;
      assert GivesManifest(c, net, location, pin, manifest) <==> IsRepository(location) && c.hash(manifest) == pin;
      forall layer ensures LayerOf(c, manifest) == Some(layer) <==> NamesOnly(c.manifest(manifest), layer) {
        LayerExactly(c, manifest, layer);
      }
      if d.layer.Some? {
        BodyExactly(net, BlobAt(location, d.layer.value), d.bytes);
      }
      if LayerOf(c, manifest).Some? {
        BodyExactly(net, BlobAt(location, LayerOf(c, manifest).value), d.bytes);
      }
    }
  }

  lemma FetchWholeExactly(c: Crypto, net: Network, location: string, pin: string, d: Download)
    ensures FetchWhole(c, net, location, pin) == Ok(d) <==>
      d.layer == None && Reads(net, Whole(location), d.bytes) && c.hash(d.bytes) == pin
    ensures FetchWhole(c, net, location, pin) == Err(FetchFailed) <==> net(Whole(location)).None?
    ensures FetchWhole(c, net, location, pin).Err? ==>
      FetchWhole(c, net, location, pin).error in {FetchFailed, DigestMismatch}
  {
    hide Body, Reads;
    BodyExactly(net, Whole(location), d.bytes);
  }

  // ---- what a resolve comes to ----

  /** The cached file is what the pin, or the layer recorded beside it, says. */
  ghost predicate Kept(c: Crypto, cache: Cache, oci: bool, pin: string) {
    && pin in cache.blobs
    && (!oci ==> c.hash(cache.blobs[pin]) == pin)
    && (oci ==> pin in cache.layers && Trimmed(cache.layers[pin], c.hash(cache.blobs[pin])))
  }

  /** Bytes with another digest than asked for: the manifest, or the layer it names. */
  ghost predicate Mismatches(c: Crypto, net: Network, location: string, pin: string, verify: bool) {
    || (InRegistry(location) && exists m :: Reads(net, ManifestAt(location, pin), m) && c.hash(m) != pin)
    || exists m, layer, b ::
         && GivesManifest(c, net, location, pin, m)
         && SignatureHolds(c, net, location, pin, verify)
         && NamesOnly(c.manifest(m), layer)
         && Reads(net, BlobAt(location, layer), b) && c.hash(b) != layer
  }

  lemma MismatchExactly(c: Crypto, net: Network, location: string, pin: string, verify: bool)
    ensures FetchOci(c, net, location, pin, verify) == Err(DigestMismatch) <==>
      Mismatches(c, net, location, pin, verify)
  {
    hide Body, Reads, IsRepository, InRegistry, LayerOf, Trusted, SignatureHolds, NamesOnly;
    RepositoryExactly(location);
    TrustedExactly(c, net, location, pin, verify);
    var body := Body(net, ManifestAt(location, pin));
    forall m ensures Reads(net, ManifestAt(location, pin), m) <==> body == Some(m) {
      BodyExactly(net, ManifestAt(location, pin), m);
    }
    if body.Some? {
      var manifest := body.value;
      forall layer ensures LayerOf(c, manifest) == Some(layer) <==> NamesOnly(c.manifest(manifest), layer) {
        LayerExactly(c, manifest, layer);
      }
      if LayerOf(c, manifest).Some? {
        var r := BlobAt(location, LayerOf(c, manifest).value);
        forall b ensures Reads(net, r, b) <==> Body(net, r) == Some(b) {
          BodyExactly(net, r, b);
        }
      }
    }
  }

  lemma HitExactly(c: Crypto, cache: Cache, scheme: Scheme, pin: string)
    ensures Hit(c, cache, scheme, pin) <==> Kept(c, cache, scheme == Oci, pin)
  {
    hide Trimmed, Trim;
    if pin in cache.blobs && pin in cache.layers {
      TrimExactly(cache.layers[pin], c.hash(cache.blobs[pin]));
    }
  }

  /** The bytes and the layer that fetching a reference yields. */
  ghost predicate Fetched(c: Crypto, a: Attempt, scheme: Scheme, location: string, pin: string, d: Download) {
    if scheme == Oci then d.layer.Some? && Chain(c, a.net, location, pin, a.verify, d.bytes, d.layer.value)
    else d.layer == None && Reads(a.net, Whole(location), d.bytes) && c.hash(d.bytes) == pin
  }

  /** How it fails: every error has its own cause, and what has none of the others is a failed fetch. */
  ghost predicate Fails(c: Crypto, a: Attempt, scheme: Scheme, location: string, pin: string, e: Error) {
    && e in {InvalidUri, SignatureRejected, DigestMismatch, FetchFailed}
    && if scheme == Oci then
         && (e == InvalidUri <==> !InRegistry(location))
         && (e == SignatureRejected <==>
               && (exists m :: GivesManifest(c, a.net, location, pin, m))
               && !SignatureHolds(c, a.net, location, pin, a.verify))
         && (e == DigestMismatch <==> Mismatches(c, a.net, location, pin, a.verify))
       else
         && e in {DigestMismatch, FetchFailed}
         && (e == FetchFailed <==> a.net(Whole(location)).None?)
  }

  lemma FetchedExactly(c: Crypto, a: Attempt, scheme: Scheme, location: string, pin: string, d: Download)
    ensures Fetch(c, a.net, scheme, location, pin, a.verify) == Ok(d) <==>
      Fetched(c, a, scheme, location, pin, d)
    ensures var f := Fetch(c, a.net, scheme, location, pin, a.verify);
      f.Err? ==> Fails(c, a, scheme, location, pin, f.error)
  {
    hide Chain, Reads, InRegistry, GivesManifest, SignatureHolds, Mismatches;
    hide Body, IsRepository, Trusted, LayerOf;
    MismatchExactly(c, a.net, location, pin, a.verify);
    FetchOciExactly(c, a.net, location, pin, a.verify, d);
    FetchWholeExactly(c, a.net, location, pin, d);
  }

  /**
   The blob is written first and then, for an oci artifact, the layer digest, of which a failed write leaves a part at
   most; the resolve succeeds if every write does.
   */
  ghost predicate Stored(cache: Cache, pin: string, d: Download, fate: Fate, result: Result<Path>, after: Cache) {
    && (result == Ok(Cached(pin)) <==> fate.completed >= 2 || (d.layer.None? && fate.completed == 1))
    && (result == Ok(Cached(pin)) || result == Err(IoFailed))
    && after.blobs == (if fate.completed == 0 then cache.blobs else cache.blobs[pin := d.bytes])
    && (d.layer.None? || fate.completed == 0 ==> after.layers == cache.layers)
    && (d.layer.Some? && fate.completed == 1 ==>
          if fate.torn.Some? && fate.torn.value <= |d.layer.value| then
            after.layers == cache.layers[pin := d.layer.value[..fate.torn.value]]
          else after.layers == cache.layers)
    && (d.layer.Some? && fate.completed >= 2 ==> after.layers == cache.layers[pin := d.layer.value])
  }

  lemma PersistIsStored(cache: Cache, pin: string, d: Download, fate: Fate)
    ensures Stored(cache, pin, d, fate, if Completes(d, fate) then Ok(Cached(pin)) else Err(IoFailed),
                   Persist(cache, pin, d, fate))
  {}

  /** A remote reference: from the cache if it keeps the file, else fetched and stored, else an error and no change. */
  lemma RemoteExactly(c: Crypto, cache: Cache, a: Attempt, location: string, scheme: Scheme, pin: string)
    requires scheme != File && Starts(a.uri, scheme) && Refers(a.uri, location, pin)
    ensures var (result, after) := Resolved(c, cache, a);
      if Kept(c, cache, scheme == Oci, pin) then result == Ok(Cached(pin)) && after == cache
      else
        || (result.Err? && Fails(c, a, scheme, location, pin, result.error) && after == cache
            && forall d :: !Fetched(c, a, scheme, location, pin, d))
        || exists d :: Fetched(c, a, scheme, location, pin, d) && Stored(cache, pin, d, a.fate, result, after)
  {
    hide Fetch, Fetched, Fails, Stored, Persist, Kept, Hit, Parse, Starts, Refers;
    ParsedExactly(a.uri, location, scheme, pin);
    HitExactly(c, cache, scheme, pin);
    if !Hit(c, cache, scheme, pin) {
      var d := Fetch(c, a.net, scheme, location, pin, a.verify);
      FetchedExactly(c, a, scheme, location, pin, Download([], None));
      if d.Ok? {
        FetchedExactly(c, a, scheme, location, pin, d.value);
        PersistIsStored(cache, pin, d.value, a.fate);
      } else {
        forall e ensures !Fetched(c, a, scheme, location, pin, e) {
          FetchedExactly(c, a, scheme, location, pin, e);
        }
      }
    }
  }

  /** A file reference is a path; a pinned one must be readable and have the pin's digest. */
  lemma LocalExactly(c: Crypto, cache: Cache, a: Attempt, location: string, path: string, pin: Option<string>)
    requires Starts(a.uri, File) && Stripped(location, "file://", path)
    requires if pin.Some? then Refers(a.uri, location, pin.value) else NoPin(a.uri) && location == a.uri
    ensures Resolved(c, cache, a).1 == cache
    ensures Resolved(c, cache, a).0 ==
      if pin.None? then Ok(Local(path))
      else if a.disk(path).None? then Err(IoFailed)
      else if c.hash(a.disk(path).value) != pin.value then Err(DigestMismatch)
      else Ok(Local(path))
  {
    hide Parse, Starts, Refers, NoPin, Stripped, TrimStartMatches;
    ParsedExactly(a.uri, location, File, if pin.Some? then pin.value else "");
    StrippedExactly(location, "file://", path);
  }

  /** Anything else is rejected. */
  lemma RejectedExactly(c: Crypto, cache: Cache, a: Attempt)
    requires forall location, scheme, pin :: !(Starts(a.uri, scheme) && Refers(a.uri, location, pin))
    requires !(Starts(a.uri, File) && NoPin(a.uri))
    ensures Resolved(c, cache, a) == (Err(InvalidUri), cache)
  {
    hide Starts, Refers, NoPin, SchemeOf;
    if Parse(a.uri).Ok? {
      var r := Parse(a.uri).value;
      ParsedExactly(a.uri, r.location, r.scheme, if r.digest.Some? then r.digest.value else "");
    } else {
      ErrorIsInvalid(a.uri);
    }
  }
}
