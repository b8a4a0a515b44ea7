/** `Tag` and `Remove` as they are written: sequential code over one store. */
module LocalStores {
  // Nobody else is at work here. Every execution is a run of the step system in `Transfer`, so what is proved there
  // about runs holds here.

  import opened Options
  import opened Oci
  import opened Store
  import opened Transfer

  /** How a store call ends when it could succeed; a manifest write can fail after the manifest has landed. */
  datatype Fate = Works | Fails | FailsLanded

  function TagRun(s: Repos, t: TagJob, fates: seq<Fate>): Option<(Repos, TagJob)>
    decreases |fates|
  {
    if fates == [] then Some((s, t))
    else
      match TagRun(s, t, fates[..|fates| - 1])
      case None => None
      case Some((s1, t1)) => TagStep(s1, t1, fates[|fates| - 1] == Works, fates[|fates| - 1] == FailsLanded)
  }

  /** `s'` is where a run of `t` from `s` can be, with `t'` as its state. */
  ghost predicate Leads(s: Repos, t: TagJob, s': Repos, t': TagJob) {
    exists fates :: TagRun(s, t, fates) == Some((s', t'))
  }

  lemma LeadsNext(s: Repos, t: TagJob, s1: Repos, t1: TagJob, fate: Fate)
    requires Leads(s, t, s1, t1) && TagStep(s1, t1, fate == Works, fate == FailsLanded).Some?
    ensures var (s2, t2) := TagStep(s1, t1, fate == Works, fate == FailsLanded).value; Leads(s, t, s2, t2)
  {
    var fates :| TagRun(s, t, fates) == Some((s1, t1));
    assert (fates + [fate])[..|fates|] == fates;
    assert TagRun(s, t, fates + [fate]).Some?;
  }

  /** What a run of `Tag` keeps: the store is sound, the source tag's bytes are remembered, nobody else's
      repository is touched, and no tag moves before the end. */
  lemma {:induction false} TagRunKeeps(s: Repos, t: TagJob, fates: seq<Fate>)
    requires AllSound(s) && t.pc == Reading && TagRun(s, t, fates).Some?
    ensures var (s', t') := TagRun(s, t, fates).value;
            && AllSound(s') && TagInv(s', t') && AllGrow(s, s') && t'.(pc := Reading) == t
            && (forall name :: name != t.dst ==> At(s', name) == At(s, name))
            && (t'.pc.Mounting? || t'.pc.Putting? || t'.pc.Tagged? ==> Resolve(At(s, t.src), t.srcTag) == Some(Doc(t'.pc.body)))
            && (!t'.pc.Tagged? ==> At(s', t.dst).tags == At(s, t.dst).tags)
            && (t'.pc.Tagged? ==> At(s', t.dst).tags == At(s, t.dst).tags[t.dstTag := Sha256(Doc(t'.pc.body))]
                                  && Resolve(At(s', t.dst), t.dstTag) == Some(Doc(t'.pc.body))
                                  && References(Doc(t'.pc.body)) <= At(s', t.dst).blobs.Keys)
    decreases |fates|
  {
    if fates != [] {
      var before := fates[..|fates| - 1];
      TagRunKeeps(s, t, before);
      var (s1, t1) := TagRun(s, t, before).value;
      TagStepSafe(s1, t1, fates[|fates| - 1] == Works, fates[|fates| - 1] == FailsLanded);
      TagStepFrame(s1, t1, fates[|fates| - 1] == Works, fates[|fates| - 1] == FailsLanded);
    }
  }

  lemma TagStepFrame(s: Repos, t: TagJob, ok: bool, landed: bool)
    requires TagStep(s, t, ok, landed).Some?
    ensures var (s', t') := TagStep(s, t, ok, landed).value;
            && (forall name :: name != t.dst ==> At(s', name) == At(s, name))
            && (!t'.pc.Tagged? ==> At(s', t.dst).tags == At(s, t.dst).tags)
            && (t'.pc.Tagged? ==> t.pc == Putting(t'.pc.body) && At(s', t.dst).blobs == At(s, t.dst).blobs
                                  && At(s', t.dst).tags == At(s, t.dst).tags[t.dstTag := Sha256(Doc(t'.pc.body))]
                                  && Resolve(At(s', t.dst), t.dstTag) == Some(Doc(t'.pc.body)))
  {
  }

  class LocalStore {
    var repos: Repos

    constructor ()
      ensures repos == map[]
    {
      repos := map[];
    }

    method PullManifest(repo: string, reference: string, fate: Fate) returns (body: Option<Content>)
      ensures body == if fate == Works then Resolve(At(repos, repo), reference) else None
    {
      var r := At(repos, repo);
      body := None;
      if fate == Works && reference in r.tags {
        var d := r.tags[reference];
        if d in r.manifests { body := Some(r.manifests[d]); }
      }
    }

    /** Refuses a blob its source does not hold. */
    method MountBlob(from: string, to: string, desc: Descriptor, fate: Fate) returns (ok: bool)
      modifies this
      ensures ok <==> fate == Works && desc.digest in old(At(repos, from).blobs)
      ensures repos == if !ok then old(repos)
                       else old(repos[to := At(repos, to).(blobs := At(repos, to).blobs[desc.digest := At(repos, from).blobs[desc.digest]])])
    {
      var source, target := At(repos, from), At(repos, to);
      ok := fate == Works && desc.digest in source.blobs;
      if ok { repos := repos[to := target.(blobs := target.blobs[desc.digest := source.blobs[desc.digest]])]; }
    }

    /** The manifest first, then its tag. */
    method PushManifest(repo: string, reference: string, body: Content, fate: Fate) returns (ok: bool)
      modifies this
      ensures ok <==> fate == Works
      ensures repos == match fate
                       case Fails => old(repos)
                       case FailsLanded => old(repos[repo := WithManifest(At(repos, repo), body)])
                       case Works => old(repos[repo := WithTag(WithManifest(At(repos, repo), body), reference, Sha256(body))])
    {
      ok := fate == Works;
      if fate == Fails { return; }
      var r := WithManifest(At(repos, repo), body);
      repos := repos[repo := r];
      if ok { repos := repos[repo := WithTag(r, reference, Sha256(body))]; }
    }

    /** `Tag`. The k-th store call ends as `fates(k)` says. An error leaves the target's tags as they were;
        a success makes the target resolve to the bytes the source resolved to, with everything they refer to. */
    method Tag(src: string, srcTag: string, dst: string, dstTag: string, fates: nat -> Fate) returns (ok: bool)
      requires AllSound(repos)
      modifies this
      ensures AllSound(repos)
      ensures forall name :: name != dst ==> At(repos, name) == old(At(repos, name))
      ensures !ok ==> At(repos, dst).tags == old(At(repos, dst).tags)
      ensures ok ==> old(Resolve(At(repos, src), srcTag)).Some?
                     && Resolve(At(repos, dst), dstTag) == old(Resolve(At(repos, src), srcTag))
                     && References(Resolve(At(repos, dst), dstTag).value) <= At(repos, dst).blobs.Keys
                     && At(repos, dst).tags == old(At(repos, dst).tags)[dstTag := Sha256(Resolve(At(repos, dst), dstTag).value)]
    {
      ghost var start, job := repos, TagJob(src, srcTag, dst, dstTag, Reading);
      ghost var job0 := job;
      assert TagRun(start, job0, []) == Some((repos, job));
      var body := PullManifest(src, srcTag, fates(0));
      if body.None? || body.value.Bytes? {
        return false;
      }
      var manifest := body.value.manifest;
      LeadsNext(start, job0, repos, job, Works);
      job := job.(pc := Mounting(manifest, 0));

      var layers := [manifest.config];
      for i := 0 to |manifest.layers|
        invariant layers == [manifest.config] + manifest.layers[..i]
      {
        layers := layers + [manifest.layers[i]];
      }
      assert layers == Parts(manifest);

      for i := 0 to |layers|
        invariant job == job0.(pc := Mounting(manifest, i)) && Leads(start, job0, repos, job)
      {
        ghost var before := repos;
        var mounted := MountBlob(src, dst, layers[i], fates(i + 1));
        if !mounted {
          Keeps(start, job0, repos, job);
          return false;
        }
        LeadsNext(start, job0, before, job, Works);
        job := job.(pc := Mounting(manifest, i + 1));
      }
      LeadsNext(start, job0, repos, job, Works);
      job := job.(pc := Putting(manifest));
      ghost var before := repos;
      var fate := fates(|layers| + 1);
      ok := PushManifest(dst, dstTag, Doc(manifest), fate);
      LeadsNext(start, job0, before, job, fate);
      Keeps(start, job0, repos, job.(pc := if ok then Tagged(manifest) else Stopped));
    }

    /** `Remove`: a digest wins over a tag, and an empty reference is an error. A removal takes nothing but
        manifests and tags away, so what was closed stays closed. */
    method RemoveReference(repo: string, tag: string, digest: Option<Digest>, dropped: set<string>, fate: Fate) returns (ok: bool)
      requires AllSound(repos)
      modifies this
      ensures AllSound(repos)
      ensures ok <==> fate == Works && (digest.Some? || tag != "")
      ensures forall name :: name != repo ==> At(repos, name) == old(At(repos, name))
      ensures var r, r' := old(At(repos, repo)), At(repos, repo);
              if !ok then r' == r
              else if digest.Some? then r' == r.(manifests := r.manifests - {digest.value}, tags := r.tags - dropped)
              else Resolve(r', tag).None? && r' == r.(tags := r.tags - {tag})
    {
      ok := fate == Works && (digest.Some? || tag != "");
      if ok {
        ghost var s := Sys(repos, []);
        var ref := if digest.Some? then ByDigest(digest.value) else ByTag(tag);
        repos := repos[repo := Delete(At(repos, repo), ref, dropped)];
        StepSafe(s, Transfer.Remove(repo, ref, dropped));
      }
    }
  }

  lemma Keeps(s: Repos, t: TagJob, s': Repos, t': TagJob)
    requires AllSound(s) && t.pc == Reading && Leads(s, t, s', t')
    ensures && AllSound(s')
            && (forall name :: name != t.dst ==> At(s', name) == At(s, name))
            && (!t'.pc.Tagged? ==> At(s', t.dst).tags == At(s, t.dst).tags)
            && (t'.pc.Tagged? ==> Resolve(At(s, t.src), t.srcTag) == Some(Doc(t'.pc.body))
                                  && At(s', t.dst).tags == At(s, t.dst).tags[t.dstTag := Sha256(Doc(t'.pc.body))]
                                  && Resolve(At(s', t.dst), t.dstTag) == Some(Doc(t'.pc.body))
                                  && References(Doc(t'.pc.body)) <= At(s', t.dst).blobs.Keys)
  {
    var fates :| TagRun(s, t, fates) == Some((s', t'));
    TagRunKeeps(s, t, fates);
  }
}
