/**
 The content-addressed artifact cache (crates/artifact): digest-pinned references,
 re-verified cache hits, and the OCI trust chain from manifest to layer.
 */
module ArtifactCache {
  // The digest is an arbitrary function of the bytes that writes 64 hexadecimal characters; nothing assumes it is
  // injective, so the theorems name a collision where one would be needed. The network, the manifest parser, the
  // signature check, the file system's failures and crashes are inputs.

  import opened Ordering
  import opened Snapshots

  type Byte = x: int | 0 <= x < 256
  type Bytes = seq<Byte>

  datatype Scheme = Https | Http | File | Oci

  datatype Error = InvalidUri | DigestMismatch | FetchFailed | SignatureRejected | IoFailed

  datatype Result<+T> = Ok(value: T) | Err(error: Error)

  datatype Reference = Reference(location: string, scheme: Scheme, digest: Option<string>)

  const MAX_ARTIFACT_BYTES: nat := 2147483648

  // ---- references ----

  predicate IsHex(c: char) {
    '0' <= c <= '9' || 'a' <= c <= 'f' || 'A' <= c <= 'F'
  }

  predicate IsHexDigest(s: string) {
    |s| == 64 && forall c | c in s :: IsHex(c)
  }

  const PIN := "@sha256:"

  /** Where the last pin marker starts, if there is one. */
  function LastPin(s: string): (r: Option<nat>)
    ensures r.Some? ==> r.value + |PIN| <= |s| && PIN <= s[r.value..]
    ensures forall i :: (if r.Some? then r.value else -1) < i <= |s| ==> !(PIN <= s[i..])
  {
    if s == "" then None
    else
      var rest := LastPin(s[1..]);
      assert forall i :: 1 <= i <= |s| ==> s[i..] == s[1..][i - 1..];
      if rest.Some? then Some(rest.value + 1)
      else if PIN <= s then Some(0) else None
  }

  function SchemeOf(uri: string): Option<Scheme> {
    if "https://" <= uri then Some(Scheme.Https)
    else if "http://" <= uri then Some(Scheme.Http)
    else if "file://" <= uri then Some(File)
    else if "oci://" <= uri then Some(Oci)
    else None
  }

  lemma LowerHexDigest(s: string)
    ensures IsHexDigest(s) ==> IsHexDigest(Lower(s)) && Lower(Lower(s)) == Lower(s)
  {
    if IsHexDigest(s) {
      forall c | c in Lower(s) ensures IsHex(c) {
        var i :| 0 <= i < |s| && LowerChar(s[i]) == c;
        assert s[i] in s;
      }
      assert Lower(Lower(s)) == Lower(s);
    }
  }

  /** `uri` is the location followed by a pin of 64 hexadecimal characters. */
  predicate PinnedAs(uri: string, location: string, hex: string) {
    uri == location + PIN + hex && IsHexDigest(hex)
  }

  lemma PinSplits(uri: string, i: nat)
    requires i + |PIN| <= |uri| && PIN <= uri[i..]
    ensures uri == uri[..i] + PIN + uri[i + |PIN|..]
  {
    assert uri == uri[..i] + uri[i..] && uri[i..] == PIN + uri[i..][|PIN|..];
  }

  /** Remote references are pinned by 64 hexadecimal characters, which are compared in lower case. */
  function Parse(uri: string): (r: Result<Reference>)
    ensures r.Ok? ==> SchemeOf(uri) == Some(r.value.scheme)
    ensures r.Ok? && r.value.digest.None? ==> r.value.scheme == File && r.value.location == uri
    ensures r.Ok? && r.value.digest.Some? ==>
      && IsHexDigest(r.value.digest.value) && Lower(r.value.digest.value) == r.value.digest.value
      && exists hex :: PinnedAs(uri, r.value.location, hex) && r.value.digest.value == Lower(hex)
  {
    var scheme, pin := SchemeOf(uri), LastPin(uri);
    if scheme.None? then Err(InvalidUri)
    else if pin.None? then if scheme.value != File then Err(InvalidUri) else Ok(Reference(uri, File, None))
    else if !IsHexDigest(uri[pin.value + |PIN|..]) then Err(InvalidUri)
    else
      var hex := uri[pin.value + |PIN|..];
      LowerHexDigest(hex);
      PinSplits(uri, pin.value);
      assert PinnedAs(uri, uri[..pin.value], hex);
      Ok(Reference(uri[..pin.value], scheme.value, Some(Lower(hex))))
  }

  /** Digits cannot hide another marker, so a pin is read back wherever it was written. */
  lemma PinIsReadBack(uri: string, location: string, hex: string)
    requires PinnedAs(uri, location, hex)
    ensures LastPin(uri) == Some(|location|)
  {
    assert uri[|location|..] == PIN + hex && PIN <= uri[|location|..];
    forall i | |location| < i < |uri| ensures uri[i] != PIN[0] {
      assert uri[i] == (PIN + hex)[i - |location|];
      assert i >= |location| + |PIN| ==> uri[i] == hex[i - |location| - |PIN|] && uri[i] in hex;
    }
    forall i | |location| < i <= |uri| ensures !(PIN <= uri[i..]) {
      assert i < |uri| ==> uri[i..][0] == uri[i];
    }
  }

  /** Parsing accepts exactly the local files without a pin and what is written as a location with a pin. */
  lemma ParseExactly(uri: string, location: string, scheme: Scheme, digest: string)
    ensures Parse(uri) == Ok(Reference(location, scheme, Some(digest))) <==>
      SchemeOf(uri) == Some(scheme) && exists hex :: PinnedAs(uri, location, hex) && Lower(hex) == digest
    ensures Parse(uri) == Ok(Reference(location, scheme, None)) <==>
      && SchemeOf(uri) == Some(scheme) && scheme == File && location == uri
      && forall i :: 0 <= i <= |uri| ==> !(PIN <= uri[i..])
  {
    hide Lower, SchemeOf, IsHexDigest;
    if hex :| PinnedAs(uri, location, hex) && Lower(hex) == digest {
      PinIsReadBack(uri, location, hex);
      assert uri[|location| + |PIN|..] == hex && uri[..|location|] == location;
    }
  }

  /** Removes the prefix as often as it occurs. */
  function TrimStartMatches(s: string, prefix: string): string
    requires prefix != ""
    decreases |s|
  {
    if prefix <= s then TrimStartMatches(s[|prefix|..], prefix) else s
  }

  /** `registry/repository` with both parts present. */
  predicate IsRepository(location: string) {
    var rest := TrimStartMatches(location, "oci://");
    exists i :: 0 <= i < |rest| - 1 && rest[i] == '/' && '/' !in rest[..i]
  }

  // ---- what a pin means ----

  /** Layers as the manifest lists them: none if there is no list, and a digest string per layer if it has one. */
  datatype Manifest = Manifest(layers: Option<seq<Option<string>>>)

  /** The digest function, the manifest parser and the signature check. */
  datatype Crypto = Crypto(
    hash: Bytes -> string, manifest: Bytes -> Option<Manifest>, signed: (string, Bytes) -> bool)

  function SingleLayer(m: Manifest): Option<string> {
    if m.layers.None? || |m.layers.value| != 1 then None
    else
      var digest := m.layers.value[0];
      if digest.Some? && "sha256:" <= digest.value then Some(digest.value[|"sha256:"|..]) else None
  }

  function LayerOf(c: Crypto, manifest: Bytes): Option<string> {
    if c.manifest(manifest).Some? then SingleLayer(c.manifest(manifest).value) else None
  }

  /** One of the given byte sequences is a manifest with the pin's digest that names the layer. */
  ghost predicate NamesLayer(c: Crypto, seen: iset<Bytes>, pin: string, layer: string) {
    exists manifest :: manifest in seen && c.hash(manifest) == pin && LayerOf(c, manifest) == Some(layer)
  }

  /** The bytes a pin stands for: their digest is the pin, or the single layer of a manifest with that digest. */
  ghost predicate Pinned(c: Crypto, seen: iset<Bytes>, scheme: Scheme, pin: string, bytes: Bytes) {
    if scheme == Oci then NamesLayer(c, seen, pin, c.hash(bytes)) else c.hash(bytes) == pin
  }

  ghost predicate Collide(c: Crypto, a: Bytes, b: Bytes) {
    a != b && c.hash(a) == c.hash(b)
  }

  /** A pin stands for one sequence of bytes, unless two of the byte sequences at hand collide. */
  lemma PinIsUnique(c: Crypto, seen: iset<Bytes>, seen': iset<Bytes>, scheme: Scheme, pin: string, a: Bytes, b: Bytes)
    requires Pinned(c, seen, scheme, pin, a) && Pinned(c, seen', scheme, pin, b)
    ensures a == b || Collide(c, a, b) || exists m, n :: m in seen && n in seen' && Collide(c, m, n)
  {
    if scheme == Oci {
      var m :| m in seen && c.hash(m) == pin && LayerOf(c, m) == Some(c.hash(a));
      var n :| n in seen' && c.hash(n) == pin && LayerOf(c, n) == Some(c.hash(b));
      if m != n {
        assert Collide(c, m, n);
      }
    }
  }

  // ---- fetching ----

  datatype Request =
    | Whole(location: string)
    | ManifestAt(location: string, digest: string)
    | BlobAt(location: string, digest: string)
    | SignatureAt(location: string, digest: string)

  type Network = Request -> Option<Bytes>

  /** What a fetch is about to store: the file and, for an OCI artifact, the layer digest to record beside it. */
  datatype Download = Download(bytes: Bytes, layer: Option<string>)

  /** A response body, cut off at the size limit. */
  function Body(net: Network, r: Request): Option<Bytes> {
    var body := net(r);
    if body.Some? && |body.value| > MAX_ARTIFACT_BYTES then Some(body.value[..MAX_ARTIFACT_BYTES]) else body
  }

  function FetchWhole(c: Crypto, net: Network, location: string, pin: string): Result<Download> {
    var body := Body(net, Whole(location));
    if body.None? then Err(FetchFailed)
    else if c.hash(body.value) != pin then Err(DigestMismatch)
    else Ok(Download(body.value, None))
  }

  /** The signature check, when a trust root is configured. */
  predicate Trusted(c: Crypto, net: Network, location: string, pin: string, verify: bool) {
    verify ==> Body(net, SignatureAt(location, pin)).Some? && c.signed(pin, Body(net, SignatureAt(location, pin)).value)
  }

  function FetchOci(c: Crypto, net: Network, location: string, pin: string, verify: bool): Result<Download> {
    var manifest := Body(net, ManifestAt(location, pin));
    if !IsRepository(location) then Err(InvalidUri)
    else if manifest.None? then Err(FetchFailed)
    else if c.hash(manifest.value) != pin then Err(DigestMismatch)
    else if !Trusted(c, net, location, pin, verify) then Err(SignatureRejected)
    else
      var layer := LayerOf(c, manifest.value);
      if layer.None? then Err(FetchFailed)
      else
        var blob := Body(net, BlobAt(location, layer.value));
        if blob.None? then Err(FetchFailed)
        else if c.hash(blob.value) != layer.value then Err(DigestMismatch)
        else Ok(Download(blob.value, layer))
  }

  function Fetch(
    c: Crypto, net: Network, scheme: Scheme, location: string, pin: string, verify: bool
  ): Result<Download> {
    if scheme == Oci then FetchOci(c, net, location, pin, verify) else FetchWhole(c, net, location, pin)
  }

  // ---- the cache ----

  /** The files `sha256/<digest>` and `sha256/<digest>.layer`. */
  datatype Cache = Cache(blobs: map<string, Bytes>, layers: map<string, string>)

  /** How far the writes get: how many complete, and how much of a layer file an incomplete one leaves behind. */
  datatype Fate = Fate(completed: nat, torn: Option<nat>)

  predicate Completes(d: Download, fate: Fate) {
    fate.completed >= if d.layer.Some? then 2 else 1
  }

  /**
   The blob is renamed into place first; the layer file is written in place, so a failure can leave a prefix of it.
   */
  function Persist(cache: Cache, pin: string, d: Download, fate: Fate): Cache {
    if fate.completed == 0 then cache
    else
      var stored := cache.(blobs := cache.blobs[pin := d.bytes]);
      if d.layer.None? then stored
      else if fate.completed >= 2 then stored.(layers := stored.layers[pin := d.layer.value])
      else if fate.torn.Some? && fate.torn.value <= |d.layer.value| then
        stored.(layers := stored.layers[pin := d.layer.value[..fate.torn.value]])
      else stored
  }

  /** A cached file that passes its re-verification. */
  predicate Hit(c: Crypto, cache: Cache, scheme: Scheme, pin: string) {
    && pin in cache.blobs
    && if scheme == Oci then pin in cache.layers && c.hash(cache.blobs[pin]) == Trim(cache.layers[pin])
       else c.hash(cache.blobs[pin]) == pin
  }

  datatype Path = Local(path: string) | Cached(pin: string)

  type Disk = string -> Option<Bytes>

  function ResolveLocal(c: Crypto, disk: Disk, r: Reference): Result<Path> {
    var path := TrimStartMatches(r.location, "file://");
    if r.digest.None? then Ok(Local(path))
    else if disk(path).None? then Err(IoFailed)
    else if c.hash(disk(path).value) != r.digest.value then Err(DigestMismatch)
    else Ok(Local(path))
  }

  datatype Attempt = Attempt(uri: string, disk: Disk, net: Network, verify: bool, fate: Fate)

  function Resolved(c: Crypto, cache: Cache, a: Attempt): (Result<Path>, Cache) {
    var parsed := Parse(a.uri);
    if parsed.Err? then (Err(parsed.error), cache)
    else
      var r := parsed.value;
      if r.scheme == File then (ResolveLocal(c, a.disk, r), cache)
      else if Hit(c, cache, r.scheme, r.digest.value) then (Ok(Cached(r.digest.value)), cache)
      else
        var d := Fetch(c, a.net, r.scheme, r.location, r.digest.value, a.verify);
        if d.Err? then (Err(d.error), cache)
        else (if Completes(d.value, a.fate) then Ok(Cached(r.digest.value)) else Err(IoFailed),
              Persist(cache, r.digest.value, d.value, a.fate))
  }

  class Resolver {
    const crypto: Crypto
    const verify: bool
    var blobs: map<string, Bytes>
    var layers: map<string, string>

    ghost function View(): Cache
      reads this
    {
      Cache(blobs, layers)
    }

    constructor (crypto: Crypto, verify: bool, blobs: map<string, Bytes>)
      ensures this.crypto == crypto && this.verify == verify && View() == Cache(blobs, map[])
    {
      this.crypto, this.verify := crypto, verify;
      this.blobs, this.layers := blobs, map[];
    }

    method Resolve(a: Attempt) returns (result: Result<Path>)
      requires a.verify == verify
      modifies this
      ensures (result, View()) == Resolved(crypto, old(View()), a)
    {
      var parsed := Parse(a.uri);
      if parsed.Err? {
        return Err(parsed.error);
      }
      var r := parsed.value;
      if r.scheme == File {
        return ResolveLocal(crypto, a.disk, r);
      }
      var pin := r.digest.value;
      if pin in blobs {
        var actual := crypto.hash(blobs[pin]);
        if actual == pin && r.scheme != Oci {
          return Ok(Cached(pin));
        }
        if r.scheme == Oci && pin in layers && actual == Trim(layers[pin]) {
          return Ok(Cached(pin));
        }
      }
      if r.scheme == Oci {
        result := FetchOciInto(a, r.location, pin);
      } else {
        result := FetchInto(a, r.location, pin);
      }
    }

    method FetchInto(a: Attempt, location: string, pin: string) returns (result: Result<Path>)
      modifies this
      ensures var d := FetchWhole(crypto, a.net, location, pin);
        if d.Err? then result == Err(d.error) && View() == old(View())
        else
          && result == (if Completes(d.value, a.fate) then Ok(Cached(pin)) else Err(IoFailed))
          && View() == Persist(old(View()), pin, d.value, a.fate)
    {
      var body := Body(a.net, Whole(location));
      if body.None? {
        return Err(FetchFailed);
      }
      if crypto.hash(body.value) != pin {
        return Err(DigestMismatch);
      }
      if a.fate.completed < 1 {
        return Err(IoFailed);
      }
      blobs := blobs[pin := body.value];
      result := Ok(Cached(pin));
    }

    method FetchOciInto(a: Attempt, location: string, pin: string) returns (result: Result<Path>)
      requires a.verify == verify
      modifies this
      ensures var d := FetchOci(crypto, a.net, location, pin, verify);
        if d.Err? then result == Err(d.error) && View() == old(View())
        else
          && result == (if Completes(d.value, a.fate) then Ok(Cached(pin)) else Err(IoFailed))
          && View() == Persist(old(View()), pin, d.value, a.fate)
    {
      if !IsRepository(location) {
        return Err(InvalidUri);
      }
      var manifest := Body(a.net, ManifestAt(location, pin));
      if manifest.None? {
        return Err(FetchFailed);
      }
      if crypto.hash(manifest.value) != pin {
        return Err(DigestMismatch);
      }
      if verify {
        var signature := Body(a.net, SignatureAt(location, pin));
        if signature.None? || !crypto.signed(pin, signature.value) {
          return Err(SignatureRejected);
        }
      }
      var layer := LayerOf(crypto, manifest.value);
      if layer.None? {
        return Err(FetchFailed);
      }
      var blob := Body(a.net, BlobAt(location, layer.value));
      if blob.None? {
        return Err(FetchFailed);
      }
      if crypto.hash(blob.value) != layer.value {
        return Err(DigestMismatch);
      }
      if a.fate.completed < 1 {
        return Err(IoFailed);
      }
      blobs := blobs[pin := blob.value];
      if a.fate.completed < 2 {
        if a.fate.torn.Some? && a.fate.torn.value <= |layer.value| {
          layers := layers[pin := layer.value[..a.fate.torn.value]];
        }
        return Err(IoFailed);
      }
      layers := layers[pin := layer.value];
      result := Ok(Cached(pin));
    }
  }

  // ---- histories ----

  /**
   Resolves with whatever fate, and anything at all happening to the cached blobs; only the resolver writes layer
   files.
   */
  datatype Event = Resolving(a: Attempt) | Corrupting(key: string, bytes: Bytes) | Removing(key: string)

  function Occurs(c: Crypto, cache: Cache, e: Event): Cache {
    match e
    case Resolving(a) => Resolved(c, cache, a).1
    case Corrupting(key, bytes) => cache.(blobs := cache.blobs[key := bytes])
    case Removing(key) => cache.(blobs := cache.blobs - {key})
  }

  function After(c: Crypto, cache: Cache, events: seq<Event>): Cache {
    if events == [] then cache else Occurs(c, After(c, cache, events[..|events| - 1]), events[|events| - 1])
  }

  /** The manifest that fetching a reference is answered with, if it is fetched as an oci artifact. */
  ghost function Answered(net: Network, scheme: Scheme, location: string, pin: string): iset<Bytes> {
    iset b | scheme == Oci && IsRepository(location) && Body(net, ManifestAt(location, pin)) == Some(b)
  }

  /** The manifest that one resolve asks for and is answered with; a hit, or a failure before it, asks for none. */
  ghost function Served(c: Crypto, cache: Cache, a: Attempt): iset<Bytes> {
    var parsed := Parse(a.uri);
    if parsed.Err? || parsed.value.scheme == File || Hit(c, cache, parsed.value.scheme, parsed.value.digest.value)
    then iset{}
    else Answered(a.net, parsed.value.scheme, parsed.value.location, parsed.value.digest.value)
  }

  /** Every manifest that the resolves of a history asked for and were answered with. */
  ghost function Seen(c: Crypto, cache: Cache, events: seq<Event>): iset<Bytes> {
    if events == [] then iset{}
    else
      var front, e := events[..|events| - 1], events[|events| - 1];
      Seen(c, cache, front) + if e.Resolving? then Served(c, After(c, cache, front), e.a) else iset{}
  }

  ghost predicate WritesHex(c: Crypto) {
    forall b :: IsHexDigest(c.hash(b))
  }

  /** A layer file is a prefix of the layer digest that a manifest with the key's digest names. */
  ghost predicate LayerFile(c: Crypto, seen: iset<Bytes>, key: string, text: string) {
    exists layer :: text <= layer && IsHexDigest(layer) && NamesLayer(c, seen, key, layer)
  }

  ghost predicate Inv(c: Crypto, seen: iset<Bytes>, cache: Cache) {
    forall key | key in cache.layers :: LayerFile(c, seen, key, cache.layers[key])
  }

  lemma SeesMore(c: Crypto, seen: iset<Bytes>, seen': iset<Bytes>, cache: Cache)
    requires seen <= seen' && Inv(c, seen, cache)
    ensures Inv(c, seen', cache)
  {
    hide IsHexDigest;
    forall key | key in cache.layers ensures LayerFile(c, seen', key, cache.layers[key]) {
      var layer :| cache.layers[key] <= layer && IsHexDigest(layer) && NamesLayer(c, seen, key, layer);
      var m :| m in seen && c.hash(m) == key && LayerOf(c, m) == Some(layer);
      assert NamesLayer(c, seen', key, layer);
    }
  }

  /** What a successful fetch is about to store. */
  ghost predicate Genuine(c: Crypto, seen: iset<Bytes>, scheme: Scheme, pin: string, d: Download) {
    && Pinned(c, seen, scheme, pin, d.bytes)
    && (if scheme != Oci then d.layer == None
        else d.layer == Some(c.hash(d.bytes)) && NamesLayer(c, seen, pin, d.layer.value) && IsHexDigest(d.layer.value))
  }

  lemma FetchedIsGenuine(c: Crypto, net: Network, scheme: Scheme, location: string, pin: string, verify: bool)
    requires WritesHex(c)
    ensures var d := Fetch(c, net, scheme, location, pin, verify);
      d.Ok? ==> Genuine(c, Answered(net, scheme, location, pin), scheme, pin, d.value)
  {
    hide IsRepository, IsHexDigest, SingleLayer, Body;
    if scheme == Oci && Fetch(c, net, scheme, location, pin, verify).Ok? {
      var manifest := Body(net, ManifestAt(location, pin)).value;
      assert manifest in Answered(net, scheme, location, pin);
      assert NamesLayer(c, Answered(net, scheme, location, pin), pin, LayerOf(c, manifest).value);
      assert IsHexDigest(c.hash(Body(net, BlobAt(location, LayerOf(c, manifest).value)).value));
    }
  }

  lemma ResolveKeepsInv(c: Crypto, seen: iset<Bytes>, cache: Cache, a: Attempt)
    requires WritesHex(c) && Inv(c, seen, cache)
    ensures Inv(c, seen + Served(c, cache, a), Resolved(c, cache, a).1)
  {
    hide Fetch, Parse, WritesHex, IsHexDigest, NamesLayer, Pinned, LayerFile, Answered, Hit, Persist, Genuine;
    var all := seen + Served(c, cache, a);
    SeesMore(c, seen, all, cache);
    var parsed := Parse(a.uri);
    if parsed.Ok? && parsed.value.scheme != File {
      var r := parsed.value;
      FetchedIsGenuine(c, a.net, r.scheme, r.location, r.digest.value, a.verify);
      var d := Fetch(c, a.net, r.scheme, r.location, r.digest.value, a.verify);
      if d.Ok? && !Hit(c, cache, r.scheme, r.digest.value) {
        PersistKeepsInv(c, Answered(a.net, r.scheme, r.location, r.digest.value), all, cache, r.scheme, r.digest.value,
                        d.value, a.fate);
      }
    }
  }

  lemma PersistKeepsInv(
    c: Crypto, seen: iset<Bytes>, all: iset<Bytes>, cache: Cache, scheme: Scheme, pin: string, d: Download, fate: Fate)
    requires seen <= all && Inv(c, all, cache) && Genuine(c, seen, scheme, pin, d)
    ensures Inv(c, all, Persist(cache, pin, d, fate))
  {
    hide IsHexDigest, LayerFile;
    if scheme == Oci {
      var digest := d.layer.value;
      forall n: nat | n <= |digest| ensures LayerFile(c, all, pin, digest[..n]) {
        PrefixIsLayerFile(c, seen, all, pin, digest, n);
      }
      assert digest[..|digest|] == digest;
    }
  }

  lemma PrefixIsLayerFile(c: Crypto, seen: iset<Bytes>, all: iset<Bytes>, pin: string, digest: string, n: nat)
    requires seen <= all && NamesLayer(c, seen, pin, digest) && IsHexDigest(digest) && n <= |digest|
    ensures LayerFile(c, all, pin, digest[..n])
  {
    hide IsHexDigest;
    var m :| m in seen && c.hash(m) == pin && LayerOf(c, m) == Some(digest);
    assert NamesLayer(c, all, pin, digest);
  }

  lemma {:induction false} HistoryKeepsLayers(c: Crypto, blobs: map<string, Bytes>, events: seq<Event>)
    requires WritesHex(c)
    ensures Inv(c, Seen(c, Cache(blobs, map[]), events), After(c, Cache(blobs, map[]), events))
  {
    hide Resolved, WritesHex, LayerFile, Served;
    if events != [] {
      var start, front, e := Cache(blobs, map[]), events[..|events| - 1], events[|events| - 1];
      HistoryKeepsLayers(c, blobs, front);
      var before := After(c, start, front);
      SeesMore(c, Seen(c, start, front), Seen(c, start, events), before);
      if e.Resolving? {
        ResolveKeepsInv(c, Seen(c, start, front), before, e.a);
      }
    }
  }

  lemma {:induction false} TrimHex(s: string)
    requires forall c | c in s :: IsHex(c)
    ensures Trim(s) == s
  {
    if s != "" {
      assert s[0] in s && s[|s| - 1] in s;
    }
  }

  /** A hit holds the pinned bytes, even when the layer file is torn. */
  lemma HitIsPinned(c: Crypto, seen: iset<Bytes>, cache: Cache, scheme: Scheme, pin: string)
    requires WritesHex(c) && Inv(c, seen, cache)
    ensures Hit(c, cache, scheme, pin) ==> pin in cache.blobs && Pinned(c, seen, scheme, pin, cache.blobs[pin])
  {
    hide NamesLayer, Trim;
    if Hit(c, cache, scheme, pin) && scheme == Oci {
      var layer :| cache.layers[pin] <= layer && IsHexDigest(layer) && NamesLayer(c, seen, pin, layer);
      TrimHex(cache.layers[pin]);
      assert IsHexDigest(c.hash(cache.blobs[pin]));
      assert cache.layers[pin] == layer;
    }
  }

  lemma SeenSnoc(c: Crypto, cache: Cache, front: seq<Event>, a: Attempt)
    ensures Seen(c, cache, front + [Resolving(a)]) == Seen(c, cache, front) + Served(c, After(c, cache, front), a)
  {
    assert (front + [Resolving(a)])[..|front|] == front;
  }

  /** A successful resolve of a remote reference, and the bytes it leaves at the returned path. */
  ghost predicate HandsOut(
    c: Crypto, blobs: map<string, Bytes>, events: seq<Event>, a: Attempt, pin: string, bytes: Bytes
  ) {
    var (result, cache) := Resolved(c, After(c, Cache(blobs, map[]), events), a);
    result == Ok(Cached(pin)) && pin in cache.blobs && cache.blobs[pin] == bytes
  }

  lemma RemoteIsPinned(c: Crypto, seen: iset<Bytes>, cache: Cache, a: Attempt, pin: string)
    requires WritesHex(c) && Inv(c, seen, cache) && Resolved(c, cache, a).0 == Ok(Cached(pin))
    ensures var after := Resolved(c, cache, a).1;
      && Parse(a.uri).Ok? && Parse(a.uri).value.digest == Some(pin)
      && pin in after.blobs
      && Pinned(c, seen + Served(c, cache, a), Parse(a.uri).value.scheme, pin, after.blobs[pin])
  {
    hide Fetch, Hit, Parse, Inv, WritesHex, Answered, IsHexDigest;
    var r := Parse(a.uri).value;
    FetchedIsGenuine(c, a.net, r.scheme, r.location, pin, a.verify);
    HitIsPinned(c, seen, cache, r.scheme, pin);
  }

  /**
   Cached resolution refines uncached fetching: after any history of resolves, failures, crashes and corrupted
   blobs, a successful resolve of a remote reference leaves, at the returned path, bytes its pin stands for,
   judged by manifests that were really served.
   */
  lemma ResolvedIsPinned(c: Crypto, blobs: map<string, Bytes>, events: seq<Event>, a: Attempt, pin: string)
    requires WritesHex(c)
    requires Resolved(c, After(c, Cache(blobs, map[]), events), a).0 == Ok(Cached(pin))
    ensures var after := Resolved(c, After(c, Cache(blobs, map[]), events), a).1;
      && Parse(a.uri).Ok? && Parse(a.uri).value.digest == Some(pin)
      && pin in after.blobs && HandsOut(c, blobs, events, a, pin, after.blobs[pin])
      && Pinned(c, Seen(c, Cache(blobs, map[]), events + [Resolving(a)]), Parse(a.uri).value.scheme, pin,
                after.blobs[pin])
  {
    hide Resolved, Parse, Pinned, Inv, WritesHex, After, Served, Seen;
    var start := Cache(blobs, map[]);
    HistoryKeepsLayers(c, blobs, events);
    RemoteIsPinned(c, Seen(c, start, events), After(c, start, events), a, pin);
    SeenSnoc(c, start, events, a);
  }

  /**
   So whatever happened to two caches, they hand out the same bytes for a reference, unless the two files collide
   or two manifests that were fetched into them do.
   */
  lemma CachesAgree(
    c: Crypto, blobs: map<string, Bytes>, events: seq<Event>, a: Attempt,
    blobs': map<string, Bytes>, events': seq<Event>, a': Attempt, pin: string, pin': string, x: Bytes, y: Bytes)
    requires WritesHex(c) && a.uri == a'.uri
    requires HandsOut(c, blobs, events, a, pin, x) && HandsOut(c, blobs', events', a', pin', y)
    ensures pin == pin'
    ensures
      var seen := Seen(c, Cache(blobs, map[]), events + [Resolving(a)]);
      var seen' := Seen(c, Cache(blobs', map[]), events' + [Resolving(a')]);
      x == y || Collide(c, x, y) || exists m, n :: m in seen && n in seen' && Collide(c, m, n)
  {
    hide Resolved, Parse, Pinned, WritesHex, After, Collide, Seen;
    ResolvedIsPinned(c, blobs, events, a, pin);
    ResolvedIsPinned(c, blobs', events', a', pin');
    PinIsUnique(c, Seen(c, Cache(blobs, map[]), events + [Resolving(a)]),
                Seen(c, Cache(blobs', map[]), events' + [Resolving(a')]), Parse(a.uri).value.scheme, pin, x, y);
  }

  // ---- hits need no network ----

  lemma TrimDigest(c: Crypto, bytes: Bytes)
    requires WritesHex(c)
    ensures Trim(c.hash(bytes)) == c.hash(bytes)
  {
    hide Trim;
    assert IsHexDigest(c.hash(bytes));
    TrimHex(c.hash(bytes));
  }

  /** What was resolved once is resolved again without the network. */
  lemma ResolvedAgainOffline(c: Crypto, cache: Cache, a: Attempt, b: Attempt, pin: string)
    requires WritesHex(c) && a.uri == b.uri
    ensures var (result, after) := Resolved(c, cache, a);
      result == Ok(Cached(pin)) ==> Resolved(c, after, b) == (result, after)
  {
    hide Fetch, Parse, NamesLayer, IsHexDigest, WritesHex, Served, Trim;
    if Resolved(c, cache, a).0 == Ok(Cached(pin)) {
      var r := Parse(a.uri).value;
      FetchedIsGenuine(c, a.net, r.scheme, r.location, pin, a.verify);
      var d := Fetch(c, a.net, r.scheme, r.location, pin, a.verify);
      if !Hit(c, cache, r.scheme, pin) {
        TrimDigest(c, d.value.bytes);
        assert Hit(c, Resolved(c, cache, a).1, r.scheme, pin);
      }
    }
  }

  // ---- one key space for two kinds of pin ----

  /** The event leaves the file of a key alone, or resolves it as the same kind of reference. */
  predicate Respects(e: Event, key: string, oci: bool) {
    match e
    case Resolving(a) =>
      Parse(a.uri).Ok? && Parse(a.uri).value.scheme != File && Parse(a.uri).value.digest == Some(key) ==>
        (Parse(a.uri).value.scheme == Oci) == oci
    case Corrupting(k, _) => k != key
    case Removing(k) => k != key
  }

  ghost predicate HoldsPinned(c: Crypto, seen: iset<Bytes>, cache: Cache, oci: bool, key: string) {
    key in cache.blobs && Pinned(c, seen, if oci then Oci else Https, key, cache.blobs[key])
  }

  lemma HoldsSeeingMore(c: Crypto, seen: iset<Bytes>, seen': iset<Bytes>, cache: Cache, oci: bool, key: string)
    requires seen <= seen' && HoldsPinned(c, seen, cache, oci, key)
    ensures HoldsPinned(c, seen', cache, oci, key)
  {
    if oci {
      var m :| m in seen && c.hash(m) == key && LayerOf(c, m) == Some(c.hash(cache.blobs[key]));
      assert NamesLayer(c, seen', key, c.hash(cache.blobs[key]));
    }
  }

  /** The attempt resolves the key as the other kind of reference. */
  predicate OtherKind(a: Attempt, key: string, oci: bool) {
    && Parse(a.uri).Ok? && Parse(a.uri).value.scheme != File && Parse(a.uri).value.digest == Some(key)
    && (Parse(a.uri).value.scheme == Oci) != oci
  }

  /** It misses, fetches, and gets as far as renaming its file into place. */
  predicate Overwrites(c: Crypto, cache: Cache, a: Attempt, key: string, oci: bool) {
    && OtherKind(a, key, oci)
    && !Hit(c, cache, Parse(a.uri).value.scheme, key)
    && Fetch(c, a.net, Parse(a.uri).value.scheme, Parse(a.uri).value.location, key, a.verify).Ok?
    && a.fate.completed > 0
  }

  /**
   A manifest names its own digest as its layer: for an oci path any that was seen, otherwise the one just fetched.
   */
  ghost predicate NamesItself(c: Crypto, seen: iset<Bytes>, a: Attempt, key: string, oci: bool)
    requires OtherKind(a, key, oci)
  {
    if oci then NamesLayer(c, seen, key, key)
    else
      var d := Fetch(c, a.net, Parse(a.uri).value.scheme, Parse(a.uri).value.location, key, a.verify);
      d.Ok? && d.value.layer == Some(key)
  }

  /** Exactly when one more resolve leaves a path right. */
  lemma StaysPinnedExactly(c: Crypto, seen: iset<Bytes>, cache: Cache, a: Attempt, key: string, oci: bool)
    requires WritesHex(c) && HoldsPinned(c, seen, cache, oci, key)
    ensures HoldsPinned(c, seen + Served(c, cache, a), Resolved(c, cache, a).1, oci, key)
            <==> (Overwrites(c, cache, a, key, oci) ==> NamesItself(c, seen, a, key, oci))
  {
    hide Fetch, Parse, Hit, WritesHex, NamesLayer, IsHexDigest;
    var all := seen + Served(c, cache, a);
    HoldsSeeingMore(c, seen, all, cache, oci, key);
    var parsed := Parse(a.uri);
    if parsed.Ok? && parsed.value.scheme != File {
      var r := parsed.value;
      FetchedIsGenuine(c, a.net, r.scheme, r.location, r.digest.value, a.verify);
      var d := Fetch(c, a.net, r.scheme, r.location, r.digest.value, a.verify);
      if d.Ok? && r.digest.value == key && a.fate.completed > 0 && (r.scheme == Oci) == oci
         && !Hit(c, cache, r.scheme, key) {
        HoldsSeeingMore(c, Answered(a.net, r.scheme, r.location, key), all, Persist(cache, key, d.value, a.fate), oci,
                        key);
      }
      if r.scheme != Oci {
        assert all == seen;
      }
    }
  }

  lemma StaysPinned(c: Crypto, seen: iset<Bytes>, cache: Cache, a: Attempt, key: string, oci: bool)
    requires WritesHex(c) && HoldsPinned(c, seen, cache, oci, key) && Respects(Resolving(a), key, oci)
    ensures HoldsPinned(c, seen + Served(c, cache, a), Resolved(c, cache, a).1, oci, key)
  {
    hide Resolved, Parse, HoldsPinned, WritesHex, Served;
    StaysPinnedExactly(c, seen, cache, a, key, oci);
  }

  /** A returned path stays right for as long as its key is only resolved as the same kind of reference. */
  lemma {:induction false} PathStaysPinned(
    c: Crypto, seen: iset<Bytes>, cache: Cache, events: seq<Event>, key: string, oci: bool)
    requires WritesHex(c) && HoldsPinned(c, seen, cache, oci, key)
    requires forall e | e in events :: Respects(e, key, oci)
    ensures HoldsPinned(c, seen + Seen(c, cache, events), After(c, cache, events), oci, key)
  {
    hide Resolved, Pinned, Respects, WritesHex, Served;
    if events == [] {
      HoldsSeeingMore(c, seen, seen + Seen(c, cache, events), cache, oci, key);
    } else {
      var front, e := events[..|events| - 1], events[|events| - 1];
      assert events == front + [e] && e in events;
      PathStaysPinned(c, seen, cache, front, key, oci);
      var before, then_ := After(c, cache, front), seen + Seen(c, cache, front);
      if e.Resolving? {
        StaysPinned(c, then_, before, e.a, key, oci);
        assert then_ + Served(c, before, e.a) == seen + Seen(c, cache, events);
      } else {
        RespectsKeeps(before, e, key, oci);
        HoldsSeeingMore(c, then_, seen + Seen(c, cache, events), before, oci, key);
      }
    }
  }

  lemma RespectsKeeps(cache: Cache, e: Event, key: string, oci: bool)
    requires !e.Resolving? && Respects(e, key, oci)
    ensures match e case Corrupting(k, _) => k != key case Removing(k) => k != key case Resolving(_) => false
  {}

  /**
   Otherwise it need not: an oci path whose pin is then fetched over https as a plain file is overwritten with the
   manifest, which the pin does not stand for as an oci reference unless it collides with a served manifest.
   */
  lemma SharedKeyIsOverwritten(c: Crypto, seen: iset<Bytes>, cache: Cache, a: Attempt, pin: string, manifest: Bytes)
    requires Parse(a.uri).Ok? && Parse(a.uri).value.scheme == Https && Parse(a.uri).value.digest == Some(pin)
    requires HoldsPinned(c, seen, cache, true, pin) && c.hash(cache.blobs[pin]) != pin
    requires c.hash(manifest) == pin && |manifest| <= MAX_ARTIFACT_BYTES && LayerOf(c, manifest) != Some(pin)
    requires a.net(Whole(Parse(a.uri).value.location)) == Some(manifest) && a.fate.completed >= 1
    ensures var (result, after) := Resolved(c, cache, a);
      && result == Ok(Cached(pin)) && after.blobs == cache.blobs[pin := manifest]
      && forall served :: HoldsPinned(c, served, after, true, pin) ==>
        exists m :: m in served && Collide(c, m, manifest)
  {
    hide Parse;
    var (result, after) := Resolved(c, cache, a);
    forall served | HoldsPinned(c, served, after, true, pin)
      ensures exists m :: m in served && Collide(c, m, manifest)
    {
      var m :| m in served && c.hash(m) == pin && LayerOf(c, m) == Some(pin);
      assert Collide(c, m, manifest);
    }
  }

  /** The other way round, a plain file is overwritten with a layer when its pin is then fetched as an oci manifest. */
  lemma SharedKeyIsOverwrittenByLayer(
    c: Crypto, seen: iset<Bytes>, cache: Cache, a: Attempt, pin: string, layer: string)
    requires WritesHex(c)
    requires HoldsPinned(c, seen, cache, false, pin) && pin !in cache.layers
    requires OtherKind(a, pin, false) && a.fate.completed >= 2
    requires var d := FetchOci(c, a.net, Parse(a.uri).value.location, pin, a.verify);
      d.Ok? && d.value.layer == Some(layer) && layer != pin
    ensures var (result, after) := Resolved(c, cache, a);
      && result == Ok(Cached(pin)) && pin in after.blobs && c.hash(after.blobs[pin]) == layer
      && !HoldsPinned(c, seen + Served(c, cache, a), after, false, pin)
  {
    hide Parse, WritesHex, Served, FetchOci, IsHexDigest, NamesLayer;
    var r := Parse(a.uri).value;
    FetchedIsGenuine(c, a.net, r.scheme, r.location, pin, a.verify);
    StaysPinnedExactly(c, seen, cache, a, pin, false);
  }
}
