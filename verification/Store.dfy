/** The content store behind `storage.Storage`, by its contract: per repository, blobs and manifests
    by digest, and tags. */
module Store {
  import opened Options
  import opened Oci

  datatype Repo = Repo(blobs: map<Digest, Content>, manifests: map<Digest, Content>, tags: map<string, Digest>)

  type Repos = map<string, Repo>

  const EMPTY_REPO := Repo(map[], map[], map[])

  function At(s: Repos, name: string): Repo {
    if name in s then s[name] else EMPTY_REPO
  }

  function WithBlob(r: Repo, body: Content): Repo {
    r.(blobs := r.blobs[Sha256(body) := body])
  }

  function WithManifest(r: Repo, body: Content): Repo {
    r.(manifests := r.manifests[Sha256(body) := body])
  }

  function WithTag(r: Repo, tag: string, d: Digest): Repo {
    r.(tags := r.tags[tag := d])
  }

  /** Manifests and blobs are looked up apart, by the media type of the descriptor. */
  predicate Present(r: Repo, desc: Descriptor) {
    if desc.mediaType.ImageManifest? then desc.digest in r.manifests else desc.digest in r.blobs
  }

  /** `PullManifest`: a tag names a digest, the digest names a manifest. */
  function Resolve(r: Repo, tag: string): Option<Content> {
    if tag in r.tags && r.tags[tag] in r.manifests then Some(r.manifests[r.tags[tag]]) else None
  }

  /** A manifest is present only if its config and all its layers are. */
  ghost predicate Closed(r: Repo) {
    forall d :: d in r.manifests ==> References(r.manifests[d]) <= r.blobs.Keys
  }

  /** A manifest in a repository that does not have what it refers to. */
  lemma NotClosed(r: Repo, body: Content)
    requires Sha256(body) in r.manifests && r.manifests[Sha256(body)] == body && !(References(body) <= r.blobs.Keys)
    ensures !Closed(r)
  {
  }

  /** Everything is stored under its own digest. */
  ghost predicate Addressed(r: Repo) {
    && (forall d :: d in r.blobs ==> d == Sha256(r.blobs[d]))
    && (forall d :: d in r.manifests ==> d == Sha256(r.manifests[d]) && r.manifests[d].Doc?)
  }

  ghost predicate Sound(r: Repo) {
    Closed(r) && Addressed(r)
  }

  ghost predicate AllSound(s: Repos) {
    forall name :: Sound(At(s, name))
  }

  /** No blob is ever lost: nothing modelled here collects garbage. */
  ghost predicate Grows(r: Repo, r': Repo) {
    r.blobs.Keys <= r'.blobs.Keys
  }
}
