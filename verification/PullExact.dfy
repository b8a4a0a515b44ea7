/** When pulls keep closure and their tag: exactly, with runs that fail. */
module PullExact {
  import opened Options
  import opened Oci
  import opened Store
  import opened Scheduling
  import opened Transfer
  import opened PullRuns

  // ---------------------------------------------------------------- building runs

  function Put(p: Pull, i: nat, t: Task<Pc>): Pull
    requires i < |p.tasks|
  {
    p.(tasks := p.tasks[i := t])
  }

  /** One move of task `i`, at the head of a run. */
  lemma HeadMove(r: Repo, p: Pull, i: nat, t: Task<Pc>, m: Move, es: seq<PullEvent>, trust: Trust)
    requires 2 <= |p.tasks| && i < |p.tasks| && !m.Start? && !m.Abandon? && TaskMove(r, p.tag, t, m).Some?
    requires Trusted(r, Put(p, i, t), Move(i, m), trust)
    ensures var (r1, t1) := TaskMove(r, p.tag, t, m).value;
            && PullRun(r, Put(p, i, t), [Move(i, m)] + es) == PullRun(r1, Put(p, i, t1), es)
            && (TrustedRun(r1, Put(p, i, t1), es, trust) ==> TrustedRun(r, Put(p, i, t), [Move(i, m)] + es, trust))
  {
    var (r1, t1) := TaskMove(r, p.tag, t, m).value;
    assert ([Move(i, m)] + es)[1..] == es;
    assert Put(p, i, t).tasks[i := t1] == Put(p, i, t1).tasks;
    assert PullStep(r, Put(p, i, t), Move(i, m)) == Some((r1, Put(p, i, t1)));
  }

  /** Whether serving `body` for task `i` keeps the remote's promise, if it is counted on. */
  ghost predicate Serves(p: Pull, i: nat, desc: Descriptor, body: Content, trust: Trust) {
    match trust
    case Trust(remote, _) =>
      remote && desc.mediaType.ImageManifest? ==> if i + 1 == |p.tasks| then body == Doc(p.manifest) else Sha256(body) == desc.digest
    case Any(s) => body == s.answer(desc)
  }

  ghost predicate NoWriteFails(es: seq<PullEvent>) {
    forall e :: e in es && e.Move? ==> !e.m.StoreFails?
  }

  /** An attempt of task `i` up to its stat. */
  lemma Fetch(r: Repo, p: Pull, i: nat, t: Task<Pc>, body: Content, es: seq<PullEvent>, trust: Trust) returns (all: seq<PullEvent>)
    requires 2 <= |p.tasks| && i < |p.tasks| && t.phase == Ready && Serves(p, i, t.desc, body, trust)
    ensures var t' := Begin(t, Fetching, false);
            var next := Put(p, i, if Present(r, t.desc) then Finish(t', false, None) else t'.(phase := Busy(Storing(body))));
            && PullRun(r, Put(p, i, t), all) == PullRun(r, next, es)
            && (TrustedRun(r, next, es, trust) ==> TrustedRun(r, Put(p, i, t), all, trust))
    ensures NoWriteFails(es) ==> NoWriteFails(all)
  {
    var t1 := Begin(t, Fetching, false);
    var t2 := t1.(phase := Busy(Checking(body)));
    all := [Move(i, Checked)] + es;
    HeadMove(r, p, i, t2, Checked, es, trust);
    HeadMove(r, p, i, t1, Fetched(body), all, trust);
    all := [Move(i, Fetched(body))] + all;
    HeadMove(r, p, i, t, Attempt(false), all, trust);
    all := [Move(i, Attempt(false))] + all;
  }

  function Landed(r: Repo, tag: string, desc: Descriptor, body: Content): Repo {
    if desc.mediaType.ImageManifest? then WithTag(WithManifest(r, body), tag, Sha256(body)) else WithBlob(r, body)
  }

  /** The rest of an attempt that finds its content missing. */
  lemma StoreAndCheck(r: Repo, p: Pull, i: nat, t: Task<Pc>, body: Content, trust: Trust) returns (es: seq<PullEvent>)
    requires 2 <= |p.tasks| && i < |p.tasks| && t.phase == Busy(Storing(body)) && Accepts(t.desc, body)
    ensures var err := if t.desc.digest == Sha256(body) then None else Some(Transient);
            PullRun(r, Put(p, i, t), es) == Some((Landed(r, p.tag, t.desc, body), Put(p, i, Finish(t, false, err))))
    ensures TrustedRun(r, Put(p, i, t), es, trust) && NoWriteFails(es)
  {
    var r', t' := Landed(r, p.tag, t.desc, body), t.(phase := Busy(Validating(body)));
    es := [Move(i, Validated)] + [];
    HeadMove(r', p, i, t', Validated, [], trust);
    HeadMove(r, p, i, t, Stored, es, trust);
    es := [Move(i, Stored)] + es;
  }

  lemma StartFirst(r: Repo, p: Pull, i: nat, es: seq<PullEvent>, trust: Trust)
    requires 2 <= |p.tasks| && i < |p.tasks| && Unstarted(p.tasks[i]) && Gate(p.tasks, i)
    ensures var t := p.tasks[i].(phase := Ready);
            && PullRun(r, p, [Move(i, Start)] + es) == PullRun(r, Put(p, i, t), es)
            && (TrustedRun(r, Put(p, i, t), es, trust) ==> TrustedRun(r, p, [Move(i, Start)] + es, trust))
  {
    assert ([Move(i, Start)] + es)[1..] == es;
    assert PullStep(r, p, Move(i, Start)) == Some((r, Put(p, i, p.tasks[i].(phase := Ready))));
  }

  /** How an undisturbed attempt ends that starts from `t`. */
  function Attempted(r: Repo, t: Task<Pc>, body: Content): Task<Pc> {
    Finish(Begin(t, Fetching, false), false, if Present(r, t.desc) || t.desc.digest == Sha256(body) then None else Some(Transient))
  }

  lemma {:induction false} AttemptReady(r: Repo, p: Pull, i: nat, t: Task<Pc>, body: Content, trust: Trust) returns (es: seq<PullEvent>)
    requires 2 <= |p.tasks| && i < |p.tasks| && t.phase == Ready && Serves(p, i, t.desc, body, trust) && Accepts(t.desc, body)
    ensures NoWriteFails(es) && TrustedRun(r, Put(p, i, t), es, trust)
    ensures PullRun(r, Put(p, i, t), es) == Some((if Present(r, t.desc) then r else Landed(r, p.tag, t.desc, body), Put(p, i, Attempted(r, t, body))))
  {
    if Present(r, t.desc) {
      es := Fetch(r, p, i, t, body, [], trust);
    } else {
      var rest := StoreAndCheck(r, p, i, Begin(t, Fetching, false).(phase := Busy(Storing(body))), body, trust);
      es := Fetch(r, p, i, t, body, rest, trust);
    }
  }

  /** One undisturbed attempt of task `i` with `body` for its content: found, or stored and checked. */
  lemma {:induction false} AttemptOnce(r: Repo, p: Pull, i: nat, body: Content, trust: Trust) returns (es: seq<PullEvent>)
    requires 2 <= |p.tasks| && i < |p.tasks| && Unstarted(p.tasks[i]) && Gate(p.tasks, i)
    requires Serves(p, i, p.tasks[i].desc, body, trust) && Accepts(p.tasks[i].desc, body)
    ensures NoWriteFails(es) && TrustedRun(r, p, es, trust)
    ensures var t := p.tasks[i];
            PullRun(r, p, es) == Some((if Present(r, t.desc) then r else Landed(r, p.tag, t.desc, body), Put(p, i, Attempted(r, t.(phase := Ready), body))))
  {
    es := AttemptReady(r, p, i, p.tasks[i].(phase := Ready), body, trust);
    StartFirst(r, p, i, es, trust);
    es := [Move(i, Start)] + es;
  }

  // ---------------------------------------------------------------- copying parts

  /** The repository after an undisturbed copy of one descriptor, and of several. */
  function Copied(r: Repo, tag: string, d: Descriptor): Repo
    requires Fetchable(d)
  {
    if Present(r, d) then r else Landed(r, tag, d, d.digest.of)
  }

  predicate AllFetchable(ds: seq<Descriptor>) {
    forall d :: d in ds ==> Fetchable(d)
  }

  function CopiedAll(r: Repo, tag: string, ds: seq<Descriptor>): Repo
    requires AllFetchable(ds)
    decreases |ds|
  {
    if ds == [] then r
    else
      assert forall d :: d in ds[1..] ==> d in ds;
      CopiedAll(Copied(r, tag, ds[0]), tag, ds[1..])
  }

  lemma CopiedOne(r: Repo, tag: string, d: Descriptor)
    requires Fetchable(d)
    ensures Copied(r, tag, d).blobs.Keys == r.blobs.Keys + PlainDigests([d])
    ensures Copied(r, tag, d).manifests.Keys == r.manifests.Keys + NestedDigests([d])
    ensures Copied(r, tag, d).tags == if NestedDigests([d]) <= r.manifests.Keys then r.tags else r.tags[tag := d.digest]
    ensures NestedDigests([d]) <= {d.digest} && (d.mediaType.ImageManifest? ==> d.digest in NestedDigests([d]))
  {
    assert d in [d];
  }

  /** What copying adds. The tag follows the manifests among the descriptors, the last one stored. */
  lemma {:induction false} CopiedAdds(r: Repo, tag: string, ds: seq<Descriptor>)
    requires AllFetchable(ds)
    ensures CopiedAll(r, tag, ds).blobs.Keys == r.blobs.Keys + PlainDigests(ds)
    ensures CopiedAll(r, tag, ds).manifests.Keys == r.manifests.Keys + NestedDigests(ds)
    ensures NestedDigests(ds) <= r.manifests.Keys ==> CopiedAll(r, tag, ds).tags == r.tags
    ensures !(NestedDigests(ds) <= r.manifests.Keys) ==>
              tag in CopiedAll(r, tag, ds).tags && CopiedAll(r, tag, ds).tags[tag] in NestedDigests(ds)
    decreases |ds|
  {
    if ds != [] {
      var d, rest := ds[0], ds[1..];
      assert ds == [d] + rest;
      assert AllFetchable(rest) && Fetchable(d);
      CopiedOne(r, tag, d);
      DigestsAppend([d], rest);
      CopiedAdds(Copied(r, tag, d), tag, rest);
    }
  }

  /** The same pull, further on. */
  ghost predicate Later(p: Pull, p': Pull) {
    p'.tag == p.tag && p'.manifest == p.manifest && p'.repo == p.repo && |p'.tasks| == |p.tasks|
  }

  /** Copying the parts from `i` up to `k`. */
  lemma {:induction false} CopyUpTo(r: Repo, p: Pull, ds: seq<Descriptor>, i: nat, k: nat, trust: Trust) returns (es: seq<PullEvent>, p': Pull)
    requires Describes(p.tasks, ds) && ReadyFor(p.tasks, i) && i <= k < |ds| && AllFetchable(ds[i..k]) && trust.Trust?
    ensures PullRun(r, p, es) == Some((CopiedAll(r, p.tag, ds[i..k]), p'))
    ensures NoWriteFails(es) && TrustedRun(r, p, es, trust) && Later(p, p') && Describes(p'.tasks, ds) && ReadyFor(p'.tasks, k)
    decreases k - i
  {
    if i == k {
      assert ds[i..k] == [];
      es, p' := [], p;
    } else {
      var d := ds[i];
      assert d in ds[i..k] && ds[i..k][0] == d && ds[i..k][1..] == ds[i + 1..k];
      var first := AttemptOnce(r, p, i, d.digest.of, trust);
      var (r1, p1) := PullRun(r, p, first).value;
      assert r1 == Copied(r, p.tag, d);
      var rest;
      rest, p' := CopyUpTo(r1, p1, ds, i + 1, k, trust);
      PullRunAppend(r, p, first, rest, trust);
      es := first + rest;
    }
  }

  /** The parts in the order they are copied in, and the manifest after them. */
  function Descriptors(m: Manifest, desc: Descriptor): seq<Descriptor> {
    Front(m) + [desc]
  }

  lemma NewPullReady(repo: string, tag: string, desc: Descriptor, m: Manifest)
    ensures Describes(NewPull(repo, tag, desc, m).tasks, Descriptors(m, desc)) && ReadyFor(NewPull(repo, tag, desc, m).tasks, 0)
    ensures Descriptors(m, desc)[..|m.layers|] == m.layers && Descriptors(m, desc)[..|m.layers| + 1] == Front(m)
  {
    var p := NewPull(repo, tag, desc, m);
    assert forall k :: 0 <= k < |p.tasks| ==> p.tasks[k] == Fresh(Descriptors(m, desc)[k], k < |m.layers|);
  }

  /** A new pull that has copied all parts. */
  lemma CopyParts(r: Repo, repo: string, tag: string, desc: Descriptor, m: Manifest, trust: Trust)
    returns (es: seq<PullEvent>, r1: Repo, p1: Pull)
    requires AllFetchable(Parts(m)) && trust.Trust?
    ensures PullRun(r, NewPull(repo, tag, desc, m), es) == Some((r1, p1)) && TrustedRun(r, NewPull(repo, tag, desc, m), es, trust)
    ensures NoWriteFails(es) && Later(NewPull(repo, tag, desc, m), p1) && Describes(p1.tasks, Descriptors(m, desc)) && ReadyFor(p1.tasks, |m.layers| + 1)
    ensures r1.blobs.Keys == r.blobs.Keys + PlainDigests(Parts(m)) && r1.manifests.Keys == r.manifests.Keys + NestedDigests(Parts(m))
    ensures NestedDigests(Parts(m)) <= r.manifests.Keys ==> r1.tags == r.tags
    ensures !(NestedDigests(Parts(m)) <= r.manifests.Keys) ==> tag in r1.tags && r1.tags[tag] in NestedDigests(Parts(m))
  {
    var p, ds, n := NewPull(repo, tag, desc, m), Descriptors(m, desc), |m.layers|;
    NewPullReady(repo, tag, desc, m);
    FrontParts(m);
    assert ds[0..n + 1] == Front(m);
    es, p1 := CopyUpTo(r, p, ds, 0, n + 1, trust);
    r1 := CopiedAll(r, tag, Front(m));
    CopiedAdds(r, tag, Front(m));
  }

  // ---------------------------------------------------------------- closure

  ghost predicate AlwaysCloses(r: Repo, repo: string, tag: string, desc: Descriptor, m: Manifest) {
    forall es :: HonestPullRun(r, NewPull(repo, tag, desc, m), es) && PullRun(r, NewPull(repo, tag, desc, m), es).Some? ==>
      Closed(PullRun(r, NewPull(repo, tag, desc, m), es).value.0)
  }

  lemma {:induction false} ClosedRun(r: Repo, p: Pull, es: seq<PullEvent>)
    requires Sound(r) && PullInv(r, p) && HonestPullRun(r, p, es) && PullRun(r, p, es).Some?
    ensures Sound(PullRun(r, p, es).value.0)
    decreases |es|
  {
    if es != [] {
      PullStepSafe(r, p, es[0]);
      ClosedRun(PullStep(r, p, es[0]).value.0, PullStep(r, p, es[0]).value.1, es[1..]);
    }
  }

  /** A layer that is itself a manifest is stored at once: when it does not rest on what is there, one attempt of it
      with every promise kept leaves the repository open. */
  lemma NestedManifestBreaksClosure(r: Repo, repo: string, tag: string, desc: Descriptor, m: Manifest, i: nat)
    returns (es: seq<PullEvent>)
    requires Sound(r) && i < |m.layers| && !Rests(m.layers[i], r.blobs.Keys)
    ensures HonestPullRun(r, NewPull(repo, tag, desc, m), es) && PullRun(r, NewPull(repo, tag, desc, m), es).Some?
    ensures !Closed(PullRun(r, NewPull(repo, tag, desc, m), es).value.0)
  {
    var p, body := NewPull(repo, tag, desc, m), m.layers[i].digest.of;
    NewPullReady(repo, tag, desc, m);
    es := AttemptOnce(r, p, i, body, BOTH);
    NotClosed(PullRun(r, p, es).value.0, body);
  }

  /** The same of the config, once the layers are copied. */
  lemma NestedConfigBreaksClosure(r: Repo, repo: string, tag: string, desc: Descriptor, m: Manifest) returns (es: seq<PullEvent>)
    requires Addressed(r) && AllFetchable(m.layers) && !Rests(m.config, r.blobs.Keys + PlainDigests(m.layers))
    ensures HonestPullRun(r, NewPull(repo, tag, desc, m), es) && PullRun(r, NewPull(repo, tag, desc, m), es).Some?
    ensures !Closed(PullRun(r, NewPull(repo, tag, desc, m), es).value.0)
  {
    var p, ds, n, body := NewPull(repo, tag, desc, m), Descriptors(m, desc), |m.layers|, m.config.digest.of;
    NewPullReady(repo, tag, desc, m);
    assert ds[0..n] == m.layers;
    var p1;
    es, p1 := CopyUpTo(r, p, ds, 0, n, BOTH);
    var r1 := CopiedAll(r, tag, m.layers);
    CopiedAdds(r, tag, m.layers);
    CopiedAddressed(r, tag, m.layers);
    var more := AttemptOnce(r1, p1, n, body, BOTH);
    PullRunAppend(r, p, es, more, BOTH);
    es := es + more;
    NotClosed(PullRun(r, p, es).value.0, body);
  }

  lemma {:induction false} CopiedAddressed(r: Repo, tag: string, ds: seq<Descriptor>)
    requires AllFetchable(ds) && Addressed(r)
    ensures Addressed(CopiedAll(r, tag, ds))
    decreases |ds|
  {
    if ds != [] {
      assert AllFetchable(ds[1..]) by { assert forall d :: d in ds[1..] ==> d in ds; }
      CopiedAddressed(Copied(r, tag, ds[0]), tag, ds[1..]);
    }
  }

  /** And of the manifest of the pull, once all parts are copied: a part that was stored as a manifest is no blob. */
  lemma WholeManifestBreaksClosure(r: Repo, repo: string, tag: string, desc: Descriptor, m: Manifest) returns (es: seq<PullEvent>)
    requires Addressed(r) && AllFetchable(Parts(m)) && desc == Descriptor(ImageManifest, Sha256(Doc(m)))
    requires !(References(Doc(m)) <= r.blobs.Keys + PlainDigests(Parts(m)))
    ensures HonestPullRun(r, NewPull(repo, tag, desc, m), es) && PullRun(r, NewPull(repo, tag, desc, m), es).Some?
    ensures !Closed(PullRun(r, NewPull(repo, tag, desc, m), es).value.0)
  {
    var p, n := NewPull(repo, tag, desc, m), |m.layers|;
    var r1, p1;
    es, r1, p1 := CopyParts(r, repo, tag, desc, m, BOTH);
    PullStoresEverything(r, repo, tag, desc, m, es, BOTH);
    var more := AttemptOnce(r1, p1, n + 1, Doc(m), BOTH);
    PullRunAppend(r, p, es, more, BOTH);
    es := es + more;
    NotClosed(PullRun(r, p, es).value.0, Doc(m));
  }

  /** With honest remotes and hooks, every run of a pull leaves a closed repository closed at every moment, if and only if
      each manifest on its way rests on what is there when its turn comes: a layer that is a manifest on the blobs there
      at the start, a config that is one also on the layers, and the manifest itself on its parts that are blobs. This is
      a condition on the repository and the manifest; without nested manifests it always holds. */
  lemma PullClosesExactly(r: Repo, repo: string, tag: string, desc: Descriptor, m: Manifest)
    requires Sound(r) && desc.digest == Sha256(Doc(m))
    ensures AlwaysCloses(r, repo, tag, desc, m) <==> KeepsClosed(r, desc, m)
    ensures PlainParts(m) ==> KeepsClosed(r, desc, m)
  {
    var p := NewPull(repo, tag, desc, m);
    if PlainParts(m) { PlainIsOrderly(m, desc.mediaType.ImageManifest?, r.blobs.Keys, Fetchable); }
    if KeepsClosed(r, desc, m) {
      NewPullInv(r, repo, tag, desc, m);
      forall es | HonestPullRun(r, p, es) && PullRun(r, p, es).Some? ensures Closed(PullRun(r, p, es).value.0) { ClosedRun(r, p, es); }
    } else if l :| l in m.layers && Fetchable(l) && !Rests(l, r.blobs.Keys) {
      var i :| 0 <= i < |m.layers| && m.layers[i] == l;
      var es := NestedManifestBreaksClosure(r, repo, tag, desc, m, i);
    } else if AllFetchable(m.layers) && Fetchable(m.config) && !Rests(m.config, r.blobs.Keys + PlainDigests(m.layers)) {
      var es := NestedConfigBreaksClosure(r, repo, tag, desc, m);
    } else {
      var es := WholeManifestBreaksClosure(r, repo, tag, desc, m);
    }
  }

  // ---------------------------------------------------------------- broken promises

  /** The bytes are stored before their digest is checked. When the remote answers the manifest's descriptor with another
      manifest, whose references are not all among the parts, a pull that has copied every part stores it, and the
      attempt fails only afterwards. Hooks may keep every promise. */
  lemma DishonestManifestBreaksClosure(r: Repo, repo: string, tag: string, desc: Descriptor, m: Manifest, body: Content)
    returns (es: seq<PullEvent>)
    requires AllFetchable(Parts(m)) && desc.mediaType.ImageManifest? && desc.digest !in r.manifests && desc.digest !in NestedDigests(Parts(m))
    requires body.Doc? && desc.digest != Sha256(body) && !(References(body) <= r.blobs.Keys + PlainDigests(Parts(m)))
    ensures TrustedRun(r, NewPull(repo, tag, desc, m), es, Trust(false, true)) && PullRun(r, NewPull(repo, tag, desc, m), es).Some?
    ensures var (r', p') := PullRun(r, NewPull(repo, tag, desc, m), es).value; !Closed(r') && !Succeeded(p')
  {
    var p, n, trust := NewPull(repo, tag, desc, m), |m.layers|, Trust(false, true);
    var r1, p1;
    es, r1, p1 := CopyParts(r, repo, tag, desc, m, trust);
    var more := AttemptOnce(r1, p1, n + 1, body, trust);
    PullRunAppend(r, p, es, more, trust);
    es := es + more;
    NotClosed(PullRun(r, p, es).value.0, body);
  }

  /** A hook may say "skip" of a layer that is not there. */
  lemma SkipOnce(r: Repo, p: Pull, i: nat) returns (es: seq<PullEvent>)
    requires 2 <= |p.tasks| && i + 2 < |p.tasks| && Unstarted(p.tasks[i]) && p.tasks[i].hooked
    ensures TrustedRun(r, p, es, Trust(true, false))
    ensures PullRun(r, p, es) == Some((r, Put(p, i, Finish(Begin(p.tasks[i].(phase := Ready), Skipping, true), true, None))))
  {
    var t, trust := p.tasks[i].(phase := Ready), Trust(true, false);
    es := [Move(i, SkipDone)] + [];
    HeadMove(r, p, i, Begin(t, Skipping, true), SkipDone, [], trust);
    HeadMove(r, p, i, t, Attempt(true), es, trust);
    es := [Move(i, Attempt(true))] + es;
    StartFirst(r, p, i, es, trust);
    es := [Move(i, Start)] + es;
  }

  /** Every part but one. */
  function Others(m: Manifest, k: nat): seq<Descriptor>
    requires k < |m.layers|
  {
    Front(m)[..k] + Front(m)[k + 1..]
  }

  /** Copying up to layer `k`, then skipping it. */
  lemma CopyThenSkip(r: Repo, p: Pull, ds: seq<Descriptor>, k: nat) returns (es: seq<PullEvent>, p': Pull)
    requires Describes(p.tasks, ds) && ReadyFor(p.tasks, 0) && k + 2 < |ds| && p.tasks[k].hooked && AllFetchable(ds[0..k])
    ensures TrustedRun(r, p, es, Trust(true, false)) && PullRun(r, p, es) == Some((CopiedAll(r, p.tag, ds[0..k]), p'))
    ensures Later(p, p') && Describes(p'.tasks, ds) && ReadyFor(p'.tasks, k + 1)
  {
    var trust := Trust(true, false);
    var before, q := CopyUpTo(r, p, ds, 0, k, trust);
    var r0 := CopiedAll(r, p.tag, ds[0..k]);
    SameHooks(r, p, before);
    var skip := SkipOnce(r0, q, k);
    p' := PullRun(r0, q, skip).value.1;
    PullRunAppend(r, p, before, skip, trust);
    es := before + skip;
  }

  /** Copying the parts up to `n`, but for layer `k`, which is skipped. */
  lemma CopyAround(r: Repo, p: Pull, ds: seq<Descriptor>, k: nat, n: nat) returns (es: seq<PullEvent>, p': Pull)
    requires Describes(p.tasks, ds) && ReadyFor(p.tasks, 0) && k < n < |ds| && k + 2 < |ds| && p.tasks[k].hooked
    requires AllFetchable(ds[0..k]) && AllFetchable(ds[k + 1..n])
    ensures TrustedRun(r, p, es, Trust(true, false)) && Later(p, p') && Describes(p'.tasks, ds) && ReadyFor(p'.tasks, n)
    ensures PullRun(r, p, es) == Some((CopiedAll(CopiedAll(r, p.tag, ds[0..k]), p.tag, ds[k + 1..n]), p'))
  {
    var before, q := CopyThenSkip(r, p, ds, k);
    var r0 := CopiedAll(r, p.tag, ds[0..k]);
    var rest;
    rest, p' := CopyUpTo(r0, q, ds, k + 1, n, Trust(true, false));
    PullRunAppend(r, p, before, rest, Trust(true, false));
    es := before + rest;
  }

  /** A new pull whose hook has skipped layer `k`, and that has copied all other parts. */
  lemma CopyAllBut(r: Repo, repo: string, tag: string, desc: Descriptor, m: Manifest, k: nat)
    returns (es: seq<PullEvent>, r1: Repo, p1: Pull)
    requires k < |m.layers| && AllFetchable(Others(m, k))
    ensures TrustedRun(r, NewPull(repo, tag, desc, m), es, Trust(true, false))
    ensures PullRun(r, NewPull(repo, tag, desc, m), es) == Some((r1, p1))
    ensures Later(NewPull(repo, tag, desc, m), p1) && Describes(p1.tasks, Descriptors(m, desc)) && ReadyFor(p1.tasks, |m.layers| + 1)
    ensures r1.blobs.Keys == r.blobs.Keys + PlainDigests(Others(m, k)) && r1.manifests.Keys == r.manifests.Keys + NestedDigests(Others(m, k))
  {
    var p, ds, n := NewPull(repo, tag, desc, m), Descriptors(m, desc), |m.layers|;
    NewPullReady(repo, tag, desc, m);
    OthersAdd(r, tag, desc, m, k);
    es, p1 := CopyAround(r, p, ds, k, n + 1);
    r1 := CopiedAll(CopiedAll(r, tag, ds[0..k]), tag, ds[k + 1..n + 1]);
  }

  /** When a hook skips one layer that is nowhere, the pull succeeds with everything else and stores the manifest over the
      gap. The remote may keep every promise. */
  lemma LyingHookBreaksClosure(r: Repo, repo: string, tag: string, desc: Descriptor, m: Manifest, k: nat) returns (es: seq<PullEvent>)
    requires k < |m.layers| && !m.layers[k].mediaType.ImageManifest? && AllFetchable(Others(m, k))
    requires m.layers[k].digest !in r.blobs && m.layers[k].digest !in PlainDigests(Others(m, k))
    requires desc == Descriptor(ImageManifest, Sha256(Doc(m))) && desc.digest !in r.manifests
    ensures TrustedRun(r, NewPull(repo, tag, desc, m), es, Trust(true, false)) && PullRun(r, NewPull(repo, tag, desc, m), es).Some?
    ensures var (r', p') := PullRun(r, NewPull(repo, tag, desc, m), es).value; !Closed(r') && Succeeded(p')
  {
    var p, n, trust := NewPull(repo, tag, desc, m), |m.layers|, Trust(true, false);
    var r1, p1;
    es, r1, p1 := CopyAllBut(r, repo, tag, desc, m, k);
    OthersAreParts(m, k, desc.digest);
    var more := AttemptOnce(r1, p1, n + 1, Doc(m), trust);
    PullRunAppend(r, p, es, more, trust);
    es := es + more;
    assert m.layers[k].digest in References(Doc(m)) by { LayersAreParts(m); }
    NotClosed(PullRun(r, p, es).value.0, Doc(m));
  }

  lemma CopiedTwice(r: Repo, tag: string, a: seq<Descriptor>, b: seq<Descriptor>)
    requires AllFetchable(a) && AllFetchable(b)
    ensures CopiedAll(CopiedAll(r, tag, a), tag, b).blobs.Keys == r.blobs.Keys + PlainDigests(a + b)
    ensures CopiedAll(CopiedAll(r, tag, a), tag, b).manifests.Keys == r.manifests.Keys + NestedDigests(a + b)
  {
    CopiedAdds(r, tag, a);
    CopiedAdds(CopiedAll(r, tag, a), tag, b);
    DigestsAppend(a, b);
  }

  lemma AllFetchableSplit(a: seq<Descriptor>, b: seq<Descriptor>)
    requires AllFetchable(a + b)
    ensures AllFetchable(a) && AllFetchable(b)
  {
    assert forall d :: d in a || d in b ==> d in a + b;
  }

  lemma OthersAdd(r: Repo, tag: string, desc: Descriptor, m: Manifest, k: nat)
    requires k < |m.layers| && AllFetchable(Others(m, k))
    ensures var ds, n := Descriptors(m, desc), |m.layers|;
            && AllFetchable(ds[0..k]) && AllFetchable(ds[k + 1..n + 1])
            && var r1 := CopiedAll(CopiedAll(r, tag, ds[0..k]), tag, ds[k + 1..n + 1]);
            r1.blobs.Keys == r.blobs.Keys + PlainDigests(Others(m, k)) && r1.manifests.Keys == r.manifests.Keys + NestedDigests(Others(m, k))
  {
    var a, b := Front(m)[..k], Front(m)[k + 1..];
    AroundSlices(Front(m), desc, k);
    AllFetchableSplit(a, b);
    CopiedTwice(r, tag, a, b);
  }

  lemma AroundSlices(front: seq<Descriptor>, desc: Descriptor, k: nat)
    requires k < |front|
    ensures (front + [desc])[0..k] == front[..k] && (front + [desc])[k + 1..|front|] == front[k + 1..]
  {
  }

  lemma OthersAreParts(m: Manifest, k: nat, d: Digest)
    requires k < |m.layers| && d == Sha256(Doc(m))
    ensures d !in NestedDigests(Others(m, k))
  {
    LayersAreParts(m);
    assert forall x :: x in Others(m, k) ==> x in Front(m);
    forall x | x in Others(m, k) ensures x.digest != d { NotItself(m, x); }
  }

  lemma {:induction false} SameHooks(r: Repo, p: Pull, es: seq<PullEvent>)
    requires PullRun(r, p, es).Some?
    ensures var p' := PullRun(r, p, es).value.1;
            |p'.tasks| == |p.tasks| && forall k :: 0 <= k < |p.tasks| ==> p'.tasks[k].hooked == p.tasks[k].hooked
    decreases |es|
  {
    if es != [] {
      var (r1, p1) := PullStep(r, p, es[0]).value;
      assert |p1.tasks| == |p.tasks| && forall k :: 0 <= k < |p.tasks| ==> p1.tasks[k].hooked == p.tasks[k].hooked;
      SameHooks(r1, p1, es[1..]);
    }
  }

  // ---------------------------------------------------------------- the tag

  ghost predicate Names(r: Repo, tag: string, d: Digest) {
    tag in r.tags && r.tags[tag] == d
  }

  /** A store whose manifest write is one act: it never leaves a manifest behind without its tag. */
  ghost predicate WholeWrites(p: Pull, es: seq<PullEvent>) {
    forall e :: e in es && e.Move? && e.i < |p.tasks| && p.tasks[e.i].desc.mediaType.ImageManifest? && e.m.StoreFails? ==> !e.m.landed
  }

  /** Every successful pull leaves the tag on the manifest: of any store, or of one with whole writes. */
  ghost predicate AlwaysTags(r: Repo, repo: string, tag: string, desc: Descriptor, m: Manifest, whole: bool) {
    forall es ::
      && HonestPullRun(r, NewPull(repo, tag, desc, m), es) && PullRun(r, NewPull(repo, tag, desc, m), es).Some?
      && Succeeded(PullRun(r, NewPull(repo, tag, desc, m), es).value.1)
      && (whole ==> WholeWrites(NewPull(repo, tag, desc, m), es)) ==>
        Names(PullRun(r, NewPull(repo, tag, desc, m), es).value.0, tag, desc.digest)
  }

  /** The tag is on the manifest already, and no part is a manifest that is still to be stored under the same tag. */
  ghost predicate Settled(r: Repo, tag: string, d: Digest, m: Manifest) {
    Names(r, tag, d) && NestedDigests(Parts(m)) <= r.manifests.Keys
  }

  /** A manifest that is found or is in nobody's hands is not stored. */
  ghost predicate LeftAlone(r: Repo, t: Task<Pc>) {
    t.desc.mediaType.ImageManifest? ==> Present(r, t.desc) && Unwritten(t)
  }

  ghost predicate StaysSettled(r: Repo, p: Pull) {
    && 2 <= |p.tasks| && Last(p).desc == Descriptor(ImageManifest, Sha256(Doc(p.manifest))) && ManifestKnows(p.manifest, Last(p))
    && Names(r, p.tag, Last(p).desc.digest)
    && forall i :: 0 <= i < |p.tasks| - 1 ==> LeftAlone(r, p.tasks[i])
  }

  lemma LeftAloneMove(r: Repo, tag: string, t: Task<Pc>, m: Move)
    requires LeftAlone(r, t) && TaskMove(r, tag, t, m).Some?
    ensures var (r', t') := TaskMove(r, tag, t, m).value; LeftAlone(r', t') && r'.tags == r.tags && r'.manifests == r.manifests
  {
  }

  lemma LastMoveNames(r: Repo, p: Pull, m: Move)
    requires StaysSettled(r, p) && TaskMove(r, p.tag, Last(p), m).Some? && (m.Fetched? ==> m.body == Doc(p.manifest))
    ensures var (r', t') := TaskMove(r, p.tag, Last(p), m).value;
            && Names(r', p.tag, Last(p).desc.digest) && t'.desc == Last(p).desc && ManifestKnows(p.manifest, t')
            && r.manifests.Keys <= r'.manifests.Keys
  {
  }

  lemma SettledStep(r: Repo, p: Pull, e: PullEvent)
    requires StaysSettled(r, p) && HonestPull(r, p, e) && PullStep(r, p, e).Some?
    ensures var (r', p') := PullStep(r, p, e).value; StaysSettled(r', p') && Later(p, p') && Last(p').desc == Last(p).desc
  {
    if e.Move? && !e.m.Start? && !e.m.Abandon? {
      if e.i + 1 == |p.tasks| { LastMoveNames(r, p, e.m); } else { LeftAloneMove(r, p.tag, p.tasks[e.i], e.m); }
    }
  }

  lemma {:induction false} SettledRun(r: Repo, p: Pull, es: seq<PullEvent>)
    requires StaysSettled(r, p) && HonestPullRun(r, p, es) && PullRun(r, p, es).Some?
    ensures Names(PullRun(r, p, es).value.0, p.tag, Last(p).desc.digest)
    decreases |es|
  {
    if es != [] {
      SettledStep(r, p, es[0]);
      SettledRun(PullStep(r, p, es[0]).value.0, PullStep(r, p, es[0]).value.1, es[1..]);
    }
  }

  lemma NewPullSettled(r: Repo, repo: string, tag: string, desc: Descriptor, m: Manifest)
    requires desc == Descriptor(ImageManifest, Sha256(Doc(m))) && Settled(r, tag, desc.digest, m)
    ensures StaysSettled(r, NewPull(repo, tag, desc, m))
  {
    var p := NewPull(repo, tag, desc, m);
    NewPullReady(repo, tag, desc, m);
    LayersAreParts(m);
    forall i | 0 <= i < |p.tasks| - 1 ensures LeftAlone(r, p.tasks[i]) {
      assert p.tasks[i].desc in Parts(m) && (p.tasks[i].desc.mediaType.ImageManifest? ==> p.tasks[i].desc.digest in NestedDigests(Parts(m)));
    }
  }

  // A manifest that was not there at first is there only once the manifest's own task has stored and tagged it.

  /** What is in hand for a part that is a manifest is not the manifest of the pull. */
  ghost predicate NotTheWhole(t: Task<Pc>, d: Digest) {
    t.desc.mediaType.ImageManifest? ==>
      && t.desc.digest != d
      && (t.phase.Busy? && (t.phase.at.Checking? || t.phase.at.Storing? || t.phase.at.Validating?) ==> Sha256(t.phase.at.body) == t.desc.digest)
  }

  ghost predicate TaggedWhenThere(r: Repo, p: Pull) {
    && 2 <= |p.tasks| && Ordered(p.tasks) && !Last(p).hooked
    && Last(p).desc == Descriptor(ImageManifest, Sha256(Doc(p.manifest))) && ManifestKnows(p.manifest, Last(p))
    && (forall i :: 0 <= i < |p.tasks| - 1 ==> NotTheWhole(p.tasks[i], Last(p).desc.digest))
    && (Last(p).desc.digest in r.manifests ==>
          Names(r, p.tag, Last(p).desc.digest) && (Last(p).phase == Won || Last(p).phase == Busy(Validating(Doc(p.manifest)))))
    && (Last(p).phase == Won ==> Last(p).desc.digest in r.manifests)
    && (Last(p).phase.Busy? && Last(p).phase.at.Validating? ==> Last(p).desc.digest in r.manifests)
    && Last(p).phase != Busy(Skipping)
  }

  lemma PartNotTheWhole(r: Repo, tag: string, t: Task<Pc>, m: Move, d: Digest)
    requires NotTheWhole(t, d) && TaskMove(r, tag, t, m).Some?
    requires m.Fetched? && t.desc.mediaType.ImageManifest? ==> Sha256(m.body) == t.desc.digest
    ensures var (r', t') := TaskMove(r, tag, t, m).value;
            NotTheWhole(t', d) && t'.desc == t.desc && t'.phase != Waiting && (d in r'.manifests ==> d in r.manifests)
  {
  }

  lemma WholeMove(r: Repo, p: Pull, m: Move)
    requires TaggedWhenThere(r, p) && TaskMove(r, p.tag, Last(p), m).Some? && (m.Fetched? ==> m.body == Doc(p.manifest))
    requires m.StoreFails? ==> !m.landed
    ensures var (r', t') := TaskMove(r, p.tag, Last(p), m).value;
            TaggedWhenThere(r', Put(p, |p.tasks| - 1, t'))
  {
    var (r', t') := TaskMove(r, p.tag, Last(p), m).value;
    OrderKept(p.tasks, |p.tasks| - 1, t');
  }

  lemma TaggedStep(r: Repo, p: Pull, e: PullEvent)
    requires TaggedWhenThere(r, p) && HonestPull(r, p, e) && PullStep(r, p, e).Some? && WholeWrites(p, [e])
    ensures var (r', p') := PullStep(r, p, e).value;
            TaggedWhenThere(r', p') && Later(p, p') && Last(p').desc == Last(p).desc
            && forall k :: 0 <= k < |p.tasks| ==> p'.tasks[k].desc == p.tasks[k].desc
  {
    if e.Move? {
      assert e in [e];
      var t' := PullStep(r, p, e).value.1.tasks[e.i];
      if e.m.Start? || e.m.Abandon? {
        OrderKept(p.tasks, e.i, t');
      } else if e.i + 1 == |p.tasks| {
        WholeMove(r, p, e.m);
      } else {
        PartNotTheWhole(r, p.tag, p.tasks[e.i], e.m, Last(p).desc.digest);
        OrderKept(p.tasks, e.i, t');
      }
    }
  }

  lemma {:induction false} TaggedRun(r: Repo, p: Pull, es: seq<PullEvent>)
    requires TaggedWhenThere(r, p) && HonestPullRun(r, p, es) && PullRun(r, p, es).Some? && WholeWrites(p, es)
    ensures var (r', p') := PullRun(r, p, es).value; TaggedWhenThere(r', p') && Later(p, p') && Last(p').desc == Last(p).desc
    decreases |es|
  {
    if es != [] {
      var (r1, p1) := PullStep(r, p, es[0]).value;
      assert es[0] in es && forall e :: e in es[1..] ==> e in es;
      assert WholeWrites(p, [es[0]]);
      TaggedStep(r, p, es[0]);
      TaggedRun(r1, p1, es[1..]);
    }
  }

  lemma NewPullTagged(r: Repo, repo: string, tag: string, desc: Descriptor, m: Manifest)
    requires desc == Descriptor(ImageManifest, Sha256(Doc(m))) && desc.digest !in r.manifests
    ensures TaggedWhenThere(r, NewPull(repo, tag, desc, m))
  {
    var p := NewPull(repo, tag, desc, m);
    NewPullReady(repo, tag, desc, m);
    LayersAreParts(m);
    forall i | 0 <= i < |p.tasks| - 1 ensures NotTheWhole(p.tasks[i], desc.digest) {
      assert p.tasks[i].desc in Parts(m);
      NotItself(m, p.tasks[i].desc);
    }
  }

  /** A pull can succeed only when every part can be had. */
  lemma SuccessMeansFetchable(r: Repo, repo: string, tag: string, desc: Descriptor, m: Manifest, es: seq<PullEvent>)
    requires Addressed(r) && HonestPullRun(r, NewPull(repo, tag, desc, m), es) && PullRun(r, NewPull(repo, tag, desc, m), es).Some?
    requires Succeeded(PullRun(r, NewPull(repo, tag, desc, m), es).value.1)
    ensures AllFetchable(Parts(m))
  {
    PullStoresEverything(r, repo, tag, desc, m, es, BOTH);
    var r' := PullRun(r, NewPull(repo, tag, desc, m), es).value.0;
    forall d | d in Parts(m) ensures Fetchable(d) { assert Present(r', d); }
  }

  /** The manifest lands, its tag does not, and the next attempt finds the manifest and succeeds. */
  lemma {:induction false} HalfWrite(r: Repo, p: Pull) returns (es: seq<PullEvent>)
    requires 2 <= |p.tasks| && ReadyFor(p.tasks, |p.tasks| - 1) && Last(p).desc == Descriptor(ImageManifest, Sha256(Doc(p.manifest)))
    requires Last(p).desc.digest !in r.manifests
    ensures HonestPullRun(r, p, es) && PullRun(r, p, es).Some?
    ensures Succeeded(PullRun(r, p, es).value.1) && PullRun(r, p, es).value.0 == WithManifest(r, Doc(p.manifest))
  {
    var i, body := |p.tasks| - 1, Doc(p.manifest);
    var t, r1 := p.tasks[i].(phase := Ready), WithManifest(r, body);
    var t1 := Begin(t, Fetching, false).(phase := Busy(Storing(body)));
    var t2 := Finish(t1, false, Some(Transient));
    es := Fetch(r1, p, i, t2, body, [], BOTH);
    HeadMove(r, p, i, t1, StoreFails(Transient, true), es, BOTH);
    es := [Move(i, StoreFails(Transient, true))] + es;
    es := Fetch(r, p, i, t, body, es, BOTH);
    StartFirst(r, p, i, es, BOTH);
    es := [Move(i, Start)] + es;
  }

  /** A successful run that leaves the tag elsewhere. When the manifest was there, even of a store with whole writes. */
  lemma TagMissed(r: Repo, repo: string, tag: string, desc: Descriptor, m: Manifest) returns (es: seq<PullEvent>)
    requires desc == Descriptor(ImageManifest, Sha256(Doc(m))) && AllFetchable(Parts(m)) && !Settled(r, tag, desc.digest, m)
    ensures HonestPullRun(r, NewPull(repo, tag, desc, m), es) && PullRun(r, NewPull(repo, tag, desc, m), es).Some?
    ensures var (r', p') := PullRun(r, NewPull(repo, tag, desc, m), es).value; Succeeded(p') && !Names(r', tag, desc.digest)
    ensures desc.digest in r.manifests ==> NoWriteFails(es)
  {
    var p, n := NewPull(repo, tag, desc, m), |m.layers|;
    var r1, p1;
    es, r1, p1 := CopyParts(r, repo, tag, desc, m, BOTH);
    forall d | d in Parts(m) ensures d.digest != desc.digest { NotItself(m, d); }
    assert desc.digest !in NestedDigests(Parts(m));
    assert !Names(r1, tag, desc.digest);
    var more;
    if desc.digest in r.manifests { more := AttemptOnce(r1, p1, n + 1, Doc(m), BOTH); } else { more := HalfWrite(r1, p1); }
    PullRunAppend(r, p, es, more, BOTH);
    es := es + more;
  }

  /** With honest remotes and hooks, every successful pull leaves the tag on the pulled manifest, if and only if (as far as
      the parts can be had at all) the tag is on it already and no part is a manifest still to be stored. A store whose
      manifest writes are whole also does so whenever the manifest was not there before: what is found is never tagged. */
  lemma PullTagsExactly(r: Repo, repo: string, tag: string, desc: Descriptor, m: Manifest)
    requires Addressed(r) && desc == Descriptor(ImageManifest, Sha256(Doc(m)))
    ensures AlwaysTags(r, repo, tag, desc, m, false) <==> (AllFetchable(Parts(m)) ==> Settled(r, tag, desc.digest, m))
    ensures AlwaysTags(r, repo, tag, desc, m, true) <==>
              (AllFetchable(Parts(m)) ==> Settled(r, tag, desc.digest, m) || desc.digest !in r.manifests)
  {
    var p := NewPull(repo, tag, desc, m);
    forall es | HonestPullRun(r, p, es) && PullRun(r, p, es).Some? && Succeeded(PullRun(r, p, es).value.1)
      ensures AllFetchable(Parts(m))
      ensures Settled(r, tag, desc.digest, m) ==> Names(PullRun(r, p, es).value.0, tag, desc.digest)
      ensures desc.digest !in r.manifests && WholeWrites(p, es) ==> Names(PullRun(r, p, es).value.0, tag, desc.digest)
    {
      SuccessMeansFetchable(r, repo, tag, desc, m, es);
      if Settled(r, tag, desc.digest, m) {
        NewPullSettled(r, repo, tag, desc, m);
        SettledRun(r, p, es);
      }
      if desc.digest !in r.manifests && WholeWrites(p, es) {
        NewPullTagged(r, repo, tag, desc, m);
        TaggedRun(r, p, es);
      }
    }
    if AllFetchable(Parts(m)) && !Settled(r, tag, desc.digest, m) {
      var es := TagMissed(r, repo, tag, desc, m);
    }
  }
}
