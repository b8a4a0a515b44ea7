/** The values a transfer moves around: contents, the digests that name them, descriptors and manifests.

    SHA-256 is idealised: the digest of a content is the constructor `Sha256` applied to it, so two
    contents with one digest are one content, and a digest text of any other shape is `Text`.
    A JSON document and the value it encodes are one thing: `Doc`. */
module Oci {
  import opened Options

  datatype MediaType = ImageManifest | OtherType(name: string)

  datatype Digest = Sha256(of: Content) | Text(text: string)

  datatype Descriptor = Descriptor(mediaType: MediaType, digest: Digest)

  datatype Manifest = Manifest(mediaType: MediaType, config: Descriptor, layers: seq<Descriptor>)

  datatype Content = Bytes(data: seq<bv8>) | Doc(manifest: Manifest)

  const NO_DIGEST := Text("")

  /** What a manifest needs beside it: its config first, then its layers, in order. */
  function Parts(m: Manifest): seq<Descriptor> {
    [m.config] + m.layers
  }

  /** No layer and no config carries the image-manifest media type: such a part is stored as a manifest, not as
      a blob, and before its siblings. */
  predicate PlainParts(m: Manifest) {
    forall d :: d in Parts(m) ==> !d.mediaType.ImageManifest?
  }

  /** The digests of those that are stored as blobs, and of those that are stored as manifests. */
  function PlainDigests(ds: seq<Descriptor>): set<Digest> {
    set d | d in ds && !d.mediaType.ImageManifest? :: d.digest
  }

  function NestedDigests(ds: seq<Descriptor>): set<Digest> {
    set d | d in ds && d.mediaType.ImageManifest? :: d.digest
  }

  /** The digests a stored content refers to. */
  function References(c: Content): set<Digest> {
    match c
    case Bytes(_) => {}
    case Doc(m) => set d | d in Parts(m) :: d.digest
  }

  lemma DigestsAppend(a: seq<Descriptor>, b: seq<Descriptor>)
    ensures PlainDigests(a + b) == PlainDigests(a) + PlainDigests(b) && NestedDigests(a + b) == NestedDigests(a) + NestedDigests(b)
  {
  }

  /** The parts in the order they are copied in. */
  function Front(m: Manifest): seq<Descriptor> {
    m.layers + [m.config]
  }

  lemma FrontParts(m: Manifest)
    ensures forall d :: d in Front(m) <==> d in Parts(m)
    ensures PlainDigests(Front(m)) == PlainDigests(Parts(m)) && NestedDigests(Front(m)) == NestedDigests(Parts(m))
  {
    assert forall d :: d in Front(m) <==> d in Parts(m);
  }

  /** A descriptor of a content of the kind its media type says. */
  predicate Fetchable(d: Descriptor) {
    d.digest.Sha256? && (d.mediaType.ImageManifest? ==> d.digest.of.Doc?)
  }

  /** If this is a manifest, everything it refers to is among `blobs`. */
  predicate Rests(d: Descriptor, blobs: set<Digest>) {
    d.mediaType.ImageManifest? && Fetchable(d) ==> References(d.digest.of) <= blobs
  }

  /** The manifests on the way of a copy rest on blobs that are surely there when they are stored: a layer's on the
      blobs there at the start, the config's also on the layers, and the manifest of the copy, if it is stored as one
      (`top`), on those and the config. A manifest counts as far as the copy can get to it: `can` are the descriptors
      that can be copied. Where no part is a manifest this always holds. */
  ghost predicate Orderly(m: Manifest, top: bool, blobs: set<Digest>, can: Descriptor -> bool) {
    && (forall l :: l in m.layers && can(l) ==> Rests(l, blobs))
    && ((forall l :: l in m.layers ==> can(l)) && can(m.config) ==> Rests(m.config, blobs + PlainDigests(m.layers)))
    && (top && (forall d :: d in Parts(m) ==> can(d)) ==> References(Doc(m)) <= blobs + PlainDigests(Parts(m)))
  }

  lemma OrderlyGrows(m: Manifest, top: bool, blobs: set<Digest>, more: set<Digest>, can: Descriptor -> bool)
    requires Orderly(m, top, blobs, can) && blobs <= more
    ensures Orderly(m, top, more, can)
  {
    forall l | l in m.layers && can(l) ensures Rests(l, more) { assert Rests(l, blobs); }
    if (forall l :: l in m.layers ==> can(l)) && can(m.config) { assert Rests(m.config, blobs + PlainDigests(m.layers)); }
  }

  lemma PlainIsOrderly(m: Manifest, top: bool, blobs: set<Digest>, can: Descriptor -> bool)
    requires PlainParts(m)
    ensures Orderly(m, top, blobs, can)
  {
    assert forall l :: l in m.layers ==> l in Parts(m) by { LayersAreParts(m); }
    assert References(Doc(m)) <= PlainDigests(Parts(m));
  }

  lemma LayersAreParts(m: Manifest)
    ensures m.config in Parts(m) && forall l :: l in m.layers ==> l in Parts(m)
    ensures forall d :: d in Parts(m) ==> d == m.config || d in m.layers
  {
    assert Parts(m)[0] == m.config;
    forall l | l in m.layers ensures l in Parts(m) {
      var k :| 0 <= k < |m.layers| && m.layers[k] == l;
      assert Parts(m)[k + 1] == l;
    }
  }

  /** No manifest names itself: a digest is made of what it is the digest of. */
  lemma NotItself(m: Manifest, d: Descriptor)
    requires d in Parts(m)
    ensures d.digest != Sha256(Doc(m))
  {
    LayersAreParts(m);
  }

  /** The digest check at the end of every copy; an empty digest never passes. */
  predicate ValidateDigest(expected: Digest, received: Content) {
    expected == Sha256(received)
  }
}
