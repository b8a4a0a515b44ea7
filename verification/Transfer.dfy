/** `Pull` in store mode, `Tag` and `Remove` as steps over one store, interleaved in any way. */
module Transfer {
  import opened Options
  import opened Oci
  import opened Store
  import opened Scheduling

  // ---------------------------------------------------------------- one attempt at one descriptor

  /** Where an attempt stands: skipped by the hook, before `Fetch`, before the stat, before the write,
      before the digest check. */
  datatype Pc = Skipping | Fetching | Checking(body: Content) | Storing(body: Content) | Validating(body: Content)

  datatype Move =
    | Start | Abandon | Attempt(skip: bool) | SkipDone
    | FetchFails(e: Failure) | Fetched(body: Content)
    | CheckFails(e: Failure) | Checked
    | StoreFails(e: Failure, landed: bool) | Stored
    | Validated

  /** What the store may accept: any manifest document, but only the bytes a blob descriptor promises. */
  predicate Accepts(desc: Descriptor, body: Content) {
    if desc.mediaType.ImageManifest? then body.Doc? else desc.digest == Sha256(body) || desc.digest == NO_DIGEST
  }

  function Land(r: Repo, desc: Descriptor, body: Content): Repo {
    if desc.mediaType.ImageManifest? then WithManifest(r, body) else WithBlob(r, body)
  }

  /** `pullIfNotExist` under its hooks, one store call or remote call a move. A failed write may still
      have landed: the manifest is written before its tag. */
  function TaskMove(r: Repo, tag: string, t: Task<Pc>, m: Move): Option<(Repo, Task<Pc>)> {
    match t.phase
    case Waiting | Won | Lost => None
    case Ready =>
      (match m
       case Attempt(skip) =>
         if skip && !t.hooked then None else Some((r, Begin(t, if skip then Skipping else Fetching, skip)))
       case _ => None)
    case Busy(at) =>
      match (at, m)
      case (Skipping, SkipDone) => Some((r, Finish(t, true, None)))
      case (Fetching, FetchFails(e)) => Some((r, Finish(t, false, Some(e))))
      case (Fetching, Fetched(body)) => Some((r, t.(phase := Busy(Checking(body)))))
      case (Checking(_), CheckFails(e)) => Some((r, Finish(t, false, Some(e))))
      case (Checking(body), Checked) =>
        Some((r, if Present(r, t.desc) then Finish(t, false, None) else t.(phase := Busy(Storing(body)))))
      case (Storing(body), StoreFails(e, landed)) =>
        if landed && !Accepts(t.desc, body) then None
        else Some((if landed then Land(r, t.desc, body) else r, Finish(t, false, Some(e))))
      case (Storing(body), Stored) =>
        if !Accepts(t.desc, body) then None
        else
          var r1 := Land(r, t.desc, body);
          Some((if t.desc.mediaType.ImageManifest? then WithTag(r1, tag, Sha256(body)) else r1,
                t.(phase := Busy(Validating(body)))))
      case (Validating(body), Validated) =>
        Some((r, Finish(t, false, if ValidateDigest(t.desc.digest, body) then None else Some(Transient))))
      case _ => None
  }

  // ---------------------------------------------------------------- one pull

  datatype Pull = Pull(repo: string, tag: string, manifest: Manifest, tasks: seq<Task<Pc>>, cancelled: bool)

  datatype PullEvent = Move(i: nat, m: Move) | Cancel

  function NewPull(repo: string, tag: string, manifestDesc: Descriptor, manifest: Manifest): Pull {
    Pull(repo, tag, manifest, Tasks(manifest.layers, manifest.config, manifestDesc, true), false)
  }

  function PullStep(r: Repo, p: Pull, e: PullEvent): Option<(Repo, Pull)> {
    match e
    case Cancel => if p.cancelled then None else Some((r, p.(cancelled := true)))
    case Move(i, m) =>
      if |p.tasks| < 2 || |p.tasks| <= i then None
      else
        var t := p.tasks[i];
        if m.Start? then
          if t.phase == Waiting && Gate(p.tasks, i) then Some((r, p.(tasks := p.tasks[i := t.(phase := Ready)]))) else None
        else if m.Abandon? then
          if (t.phase == Waiting || t.phase == Ready) && Gate(p.tasks, i) && Cancelled(p.tasks, i, p.cancelled)
          then Some((r, p.(tasks := p.tasks[i := t.(phase := Lost)]))) else None
        else
          match TaskMove(r, p.tag, t, m)
          case None => None
          case Some((r', t')) => Some((r', p.(tasks := p.tasks[i := t'])))
  }

  /** `Pull` returns without an error. */
  predicate Succeeded(p: Pull) {
    0 < |p.tasks| && p.tasks[|p.tasks| - 1].phase == Won
  }

  // ---------------------------------------------------------------- one tag

  datatype TagPc = Reading | Mounting(body: Manifest, k: nat) | Putting(body: Manifest) | Tagged(body: Manifest) | Stopped

  datatype TagJob = TagJob(src: string, srcTag: string, dst: string, dstTag: string, pc: TagPc)

  /** One store call of `Tag`. `ok` says whether the call returns no error, `landed` whether a failed
      manifest write left the manifest behind without its tag. */
  function TagStep(s: Repos, t: TagJob, ok: bool, landed: bool): Option<(Repos, TagJob)> {
    var stop := t.(pc := Stopped);
    match t.pc
    case Reading =>
      if !ok then Some((s, stop))
      else
        (match Resolve(At(s, t.src), t.srcTag)
         case Some(Doc(m)) => Some((s, t.(pc := Mounting(m, 0))))
         case _ => None)
    case Mounting(m, k) =>
      if |Parts(m)| <= k then Some((s, t.(pc := Putting(m))))
      else if !ok then Some((s, stop))
      else
        var d := Parts(m)[k].digest;
        if d !in At(s, t.src).blobs then None
        else
          var r := At(s, t.dst);
          Some((s[t.dst := r.(blobs := r.blobs[d := At(s, t.src).blobs[d]])], t.(pc := Mounting(m, k + 1))))
    case Putting(m) =>
      var r := At(s, t.dst);
      if ok then Some((s[t.dst := WithTag(WithManifest(r, Doc(m)), t.dstTag, Sha256(Doc(m)))], t.(pc := Tagged(m))))
      else Some((if landed then s[t.dst := WithManifest(r, Doc(m))] else s, stop))
    case Tagged(_) | Stopped => None
  }

  // ---------------------------------------------------------------- many of them over one store

  datatype Ref = ByTag(tag: string) | ByDigest(d: Digest)

  datatype Job = Pulling(p: Pull) | Tagging(t: TagJob)

  /** `Remove` is a single store call. Deleting by digest may also drop any tags (`dropped`). */
  datatype Event =
    | OfPull(j: nat, e: PullEvent)
    | OfTag(j: nat, ok: bool, landed: bool)
    | Remove(repo: string, ref: Ref, dropped: set<string>)

  datatype Sys = Sys(repos: Repos, jobs: seq<Job>)

  function Delete(r: Repo, ref: Ref, dropped: set<string>): Repo {
    match ref
    case ByTag(tag) => r.(tags := r.tags - {tag})
    case ByDigest(d) => r.(manifests := r.manifests - {d}, tags := r.tags - dropped)
  }

  function Step(s: Sys, e: Event): Option<Sys> {
    match e
    case OfPull(j, pe) =>
      if j < |s.jobs| && s.jobs[j].Pulling? then
        var p := s.jobs[j].p;
        match PullStep(At(s.repos, p.repo), p, pe)
        case None => None
        case Some((r, p')) => Some(Sys(s.repos[p.repo := r], s.jobs[j := Pulling(p')]))
      else None
    case OfTag(j, ok, landed) =>
      if j < |s.jobs| && s.jobs[j].Tagging? then
        match TagStep(s.repos, s.jobs[j].t, ok, landed)
        case None => None
        case Some((repos, t)) => Some(Sys(repos, s.jobs[j := Tagging(t)]))
      else None
    case Remove(repo, ref, dropped) =>
      Some(s.(repos := s.repos[repo := Delete(At(s.repos, repo), ref, dropped)]))
  }

  /** The state after a run; `None` when some event of it could not happen. Every prefix of a run is a
      run, so a statement about all runs covers a stop at any point. */
  function Run(s: Sys, es: seq<Event>): Option<Sys>
    decreases |es|
  {
    if es == [] then Some(s)
    else
      match Step(s, es[0])
      case None => None
      case Some(s1) => Run(s1, es[1..])
  }

  // ---------------------------------------------------------------- what the code relies on

  /** The two promises made by others. The remote answers the manifest's descriptor with the manifest that was
      decoded, and any other descriptor of a manifest with bytes of its digest; the bytes of a blob are checked by
      the store. A hook skips only a layer that is stored. */
  ghost predicate HonestFetch(p: Pull, e: PullEvent) {
    e.Move? && e.i < |p.tasks| && e.m.Fetched? && p.tasks[e.i].desc.mediaType.ImageManifest? ==>
      if e.i + 1 == |p.tasks| then e.m.body == Doc(p.manifest) else Sha256(e.m.body) == p.tasks[e.i].desc.digest
  }

  ghost predicate HonestSkip(r: Repo, p: Pull, e: PullEvent) {
    e.Move? && e.i < |p.tasks| && e.m.Attempt? && e.m.skip ==> Present(r, p.tasks[e.i].desc)
  }

  ghost predicate HonestPull(r: Repo, p: Pull, e: PullEvent) {
    HonestFetch(p, e) && HonestSkip(r, p, e)
  }

  ghost predicate Honest(s: Sys, e: Event) {
    e.OfPull? && e.j < |s.jobs| && s.jobs[e.j].Pulling? ==>
      HonestPull(At(s.repos, s.jobs[e.j].p.repo), s.jobs[e.j].p, e.e)
  }

  ghost predicate HonestRun(s: Sys, es: seq<Event>)
    decreases |es|
  {
    es != [] ==> Honest(s, es[0]) && (Step(s, es[0]).Some? ==> HonestRun(Step(s, es[0]).value, es[1..]))
  }

  // ---------------------------------------------------------------- invariants

  ghost predicate Shape(p: Pull) {
    var n := |p.manifest.layers|;
    && |p.tasks| == n + 2
    && (forall i :: 0 <= i <= n ==> p.tasks[i].desc == (if i < n then p.manifest.layers[i] else p.manifest.config))
    && (forall i :: 0 <= i < n + 2 ==> p.tasks[i].hooked == (i < n))
  }

  /** A layer or config that is over, skipped or validating has its blob in the store. One that is itself a manifest
      has been found or stored by then, and what is in hand for it has its digest. */
  ghost predicate PartKnows(r: Repo, t: Task<Pc>) {
    if t.desc.mediaType.ImageManifest? then
      && (t.phase == Won || t.phase == Busy(Skipping) ==> Fetchable(t.desc))
      && (t.phase.Busy? && t.phase.at.Checking? ==> Sha256(t.phase.at.body) == t.desc.digest)
      && (t.phase.Busy? && t.phase.at.Storing? ==> Sha256(t.phase.at.body) == t.desc.digest)
      && (t.phase.Busy? && t.phase.at.Validating? ==> Sha256(t.phase.at.body) == t.desc.digest && t.phase.at.body.Doc?)
    else
      && (t.phase == Won || t.phase == Busy(Skipping) ==> t.desc.digest in r.blobs)
      && (t.phase.Busy? && t.phase.at.Validating? ==> Sha256(t.phase.at.body) in r.blobs)
  }

  ghost predicate ManifestKnows(m: Manifest, t: Task<Pc>) {
    t.desc.mediaType.ImageManifest? && t.phase.Busy? && (t.phase.at.Checking? || t.phase.at.Storing? || t.phase.at.Validating?) ==>
      t.phase.at.body == Doc(m)
  }

  /** Whether the pull can keep a repository closed: a condition on the repository and the manifest alone. */
  ghost predicate KeepsClosed(r: Repo, desc: Descriptor, m: Manifest) {
    Orderly(m, desc.mediaType.ImageManifest?, r.blobs.Keys, Fetchable)
  }

  ghost predicate PullInv(r: Repo, p: Pull) {
    && Shape(p)
    && Ordered(p.tasks)
    && (forall i :: 0 <= i < |p.tasks| - 1 ==> PartKnows(r, p.tasks[i]))
    && ManifestKnows(p.manifest, p.tasks[|p.tasks| - 1])
    && KeepsClosed(r, p.tasks[|p.tasks| - 1].desc, p.manifest)
  }

  ghost predicate TagInv(s: Repos, t: TagJob) {
    match t.pc
    case Mounting(m, k) => k <= |Parts(m)| && forall i :: 0 <= i < k ==> Parts(m)[i].digest in At(s, t.dst).blobs
    case Putting(m) => References(Doc(m)) <= At(s, t.dst).blobs.Keys
    case _ => true
  }

  ghost predicate JobInv(s: Repos, job: Job) {
    match job
    case Pulling(p) => PullInv(At(s, p.repo), p)
    case Tagging(t) => TagInv(s, t)
  }

  ghost predicate SysInv(s: Sys) {
    && AllSound(s.repos)
    && forall j :: 0 <= j < |s.jobs| ==> JobInv(s.repos, s.jobs[j])
  }

  lemma NewPullInv(r: Repo, repo: string, tag: string, desc: Descriptor, m: Manifest)
    requires KeepsClosed(r, desc, m)
    ensures PullInv(r, NewPull(repo, tag, desc, m))
  {
    var p, n := NewPull(repo, tag, desc, m), |m.layers|;
    forall i | 0 <= i < n ensures p.tasks[i] == Fresh(m.layers[i], true) {}
    assert p.tasks[n] == Fresh(m.config, false) && p.tasks[n + 1] == Fresh(desc, false);
  }

  /** What a move promises the store and every other process. */
  lemma TaskMoveSafe(r: Repo, tag: string, t: Task<Pc>, m: Move)
    requires Sound(r) && TaskMove(r, tag, t, m).Some?
    requires t.desc.mediaType.ImageManifest? && t.phase.Busy? && t.phase.at.Storing? && t.phase.at.body.Doc? ==>
               References(t.phase.at.body) <= r.blobs.Keys
    ensures var (r', t') := TaskMove(r, tag, t, m).value;
            Sound(r') && Grows(r, r') && t'.desc == t.desc && t'.hooked == t.hooked && t'.phase != Waiting
  {
  }

  /** What a move promises of its own task. */
  lemma PartMoveKnows(r: Repo, tag: string, t: Task<Pc>, m: Move)
    requires Addressed(r) && TaskMove(r, tag, t, m).Some? && PartKnows(r, t)
    requires m.Attempt? && m.skip ==> Present(r, t.desc)
    requires m.Fetched? && t.desc.mediaType.ImageManifest? ==> Sha256(m.body) == t.desc.digest
    ensures PartKnows(TaskMove(r, tag, t, m).value.0, TaskMove(r, tag, t, m).value.1)
  {
  }

  /** Layers that are over: those stored as blobs are there, the others are manifests that could be had. */
  lemma LayersStored(r: Repo, p: Pull)
    requires Addressed(r) && PullInv(r, p) && p.tasks[|p.tasks| - 2].phase != Waiting
    ensures (forall l :: l in p.manifest.layers ==> Fetchable(l)) && PlainDigests(p.manifest.layers) <= r.blobs.Keys
  {
    forall l | l in p.manifest.layers ensures Fetchable(l) && (!l.mediaType.ImageManifest? ==> l.digest in r.blobs) {
      var i :| 0 <= i < |p.manifest.layers| && p.manifest.layers[i] == l;
      assert PartKnows(r, p.tasks[i]);
    }
  }

  /** When the manifest's turn has come, everything it refers to is in the store. */
  lemma PartsStored(r: Repo, p: Pull)
    requires Addressed(r) && PullInv(r, p) && p.tasks[|p.tasks| - 1].phase != Waiting && p.tasks[|p.tasks| - 1].desc.mediaType.ImageManifest?
    ensures References(Doc(p.manifest)) <= r.blobs.Keys
  {
    var m := p.manifest;
    LayersStored(r, p);
    LayersAreParts(m);
    assert PartKnows(r, p.tasks[|m.layers|]);
    forall d | d in Parts(m) ensures Fetchable(d) && (!d.mediaType.ImageManifest? ==> d.digest in r.blobs) {
      assert d == m.config || d in m.layers;
      if d in m.layers && !d.mediaType.ImageManifest? { assert d.digest in PlainDigests(m.layers); }
    }
  }

  /** Whatever is stored as a manifest rests on what is there. */
  lemma StoringRests(r: Repo, p: Pull, i: nat)
    requires Addressed(r) && PullInv(r, p) && i < |p.tasks| && p.tasks[i].desc.mediaType.ImageManifest?
    requires p.tasks[i].phase.Busy? && p.tasks[i].phase.at.Storing? && p.tasks[i].phase.at.body.Doc?
    ensures References(p.tasks[i].phase.at.body) <= r.blobs.Keys
  {
    var n := |p.manifest.layers|;
    if i == n + 1 {
      PartsStored(r, p);
    } else {
      assert PartKnows(r, p.tasks[i]);
      if i == n { LayersStored(r, p); } else { assert p.manifest.layers[i] in p.manifest.layers; }
    }
  }

  /** A task that starts or is given up writes nothing. */
  lemma TurnSafe(r: Repo, p: Pull, i: nat, m: Move)
    requires PullInv(r, p) && (m.Start? || m.Abandon?) && PullStep(r, p, Move(i, m)).Some?
    ensures var (r', p') := PullStep(r, p, Move(i, m)).value; r' == r && PullInv(r, p') && p'.repo == p.repo
  {
    var t' := PullStep(r, p, Move(i, m)).value.1.tasks[i];
    OrderKept(p.tasks, i, t');
    PullInvKept(r, p, i, t', r);
  }

  lemma {:induction false} AttemptSafe(r: Repo, p: Pull, i: nat, m: Move)
    requires Sound(r) && PullInv(r, p) && HonestPull(r, p, Move(i, m)) && !m.Start? && !m.Abandon?
    requires i < |p.tasks| && TaskMove(r, p.tag, p.tasks[i], m).Some?
    ensures var (r', t') := TaskMove(r, p.tag, p.tasks[i], m).value;
            Sound(r') && Grows(r, r') && PullInv(r', p.(tasks := p.tasks[i := t']))
  {
    var t := p.tasks[i];
    var (r', t') := TaskMove(r, p.tag, t, m).value;
    if t.desc.mediaType.ImageManifest? && t.phase.Busy? && t.phase.at.Storing? && t.phase.at.body.Doc? { StoringRests(r, p, i); }
    TaskMoveSafe(r, p.tag, t, m);
    if i + 1 < |p.tasks| { PartMoveKnows(r, p.tag, t, m); }
    OrderKept(p.tasks, i, t');
    PullInvKept(r, p, i, t', r');
  }

  lemma {:induction false} PullStepSafe(r: Repo, p: Pull, e: PullEvent)
    requires Sound(r) && PullInv(r, p) && HonestPull(r, p, e) && PullStep(r, p, e).Some?
    ensures var (r', p') := PullStep(r, p, e).value;
            Sound(r') && Grows(r, r') && PullInv(r', p') && p'.repo == p.repo
  {
    match e
    case Cancel =>
    case Move(i, m) => if m.Start? || m.Abandon? { TurnSafe(r, p, i, m); } else { AttemptSafe(r, p, i, m); }
  }

  lemma PullInvKept(r: Repo, p: Pull, i: nat, t: Task<Pc>, r': Repo)
    requires PullInv(r, p) && i < |p.tasks| && Grows(r, r')
    requires t.desc == p.tasks[i].desc && t.hooked == p.tasks[i].hooked && Ordered(p.tasks[i := t])
    requires i + 1 < |p.tasks| ==> PartKnows(r', t)
    requires i + 1 == |p.tasks| ==> ManifestKnows(p.manifest, t)
    ensures PullInv(r', p.(tasks := p.tasks[i := t]))
  {
    var tasks, last := p.tasks[i := t], |p.tasks| - 1;
    forall k | 0 <= k < last ensures PartKnows(r', tasks[k]) { assert PartKnows(r, p.tasks[k]); }
    OrderlyGrows(p.manifest, p.tasks[last].desc.mediaType.ImageManifest?, r.blobs.Keys, r'.blobs.Keys, Fetchable);
    assert tasks[last].desc == p.tasks[last].desc;
  }

  lemma TagStepSafe(s: Repos, t: TagJob, ok: bool, landed: bool)
    requires AllSound(s) && TagInv(s, t) && TagStep(s, t, ok, landed).Some?
    ensures var (s', t') := TagStep(s, t, ok, landed).value;
            AllSound(s') && AllGrow(s, s') && TagInv(s', t')
  {
    var (s', t') := TagStep(s, t, ok, landed).value;
    var r, r' := At(s, t.dst), At(s', t.dst);
    assert Sound(r) && Sound(At(s, t.src));
    if t.pc.Mounting? {
      var m, k := t.pc.body, t.pc.k;
      assert forall i :: 0 <= i < k ==> Parts(m)[i].digest in r.blobs;
      assert k == |Parts(m)| ==> forall part :: part in Parts(m) ==> exists i :: 0 <= i < k && Parts(m)[i] == part;
      assert Addressed(At(s, t.src));
    }
    assert forall d :: d in r.blobs ==> d in r'.blobs;
    assert Addressed(r') && Closed(r');
    assert forall name :: name != t.dst ==> At(s', name) == At(s, name);
  }

  ghost predicate AllGrow(s: Repos, s': Repos) {
    forall name :: Grows(At(s, name), At(s', name))
  }

  /** What one process knows stays true while others write. */
  lemma JobInvStable(s: Repos, s': Repos, job: Job)
    requires JobInv(s, job) && AllGrow(s, s')
    ensures JobInv(s', job)
  {
    match job
    case Tagging(t) => assert Grows(At(s, t.dst), At(s', t.dst));
    case Pulling(p) =>
      var r, r' := At(s, p.repo), At(s', p.repo);
      assert Grows(r, r');
      forall i | 0 <= i < |p.tasks| - 1 ensures PartKnows(r', p.tasks[i]) { assert PartKnows(r, p.tasks[i]); }
      OrderlyGrows(p.manifest, p.tasks[|p.tasks| - 1].desc.mediaType.ImageManifest?, r.blobs.Keys, r'.blobs.Keys, Fetchable);
  }

  /** One process has moved on, and with it the store. */
  lemma OthersStable(s: Sys, s': Sys, j: nat)
    requires SysInv(s) && AllSound(s'.repos) && AllGrow(s.repos, s'.repos) && |s'.jobs| == |s.jobs|
    requires j < |s.jobs| ==> JobInv(s'.repos, s'.jobs[j])
    requires forall k :: 0 <= k < |s.jobs| && k != j ==> s'.jobs[k] == s.jobs[k]
    ensures SysInv(s')
  {
    forall k | 0 <= k < |s'.jobs| ensures JobInv(s'.repos, s'.jobs[k]) {
      if k != j { JobInvStable(s.repos, s'.repos, s.jobs[k]); }
    }
  }

  lemma PullEventSafe(s: Sys, j: nat, e: PullEvent)
    requires SysInv(s) && Honest(s, OfPull(j, e)) && Step(s, OfPull(j, e)).Some?
    ensures SysInv(Step(s, OfPull(j, e)).value)
  {
    var s', p := Step(s, OfPull(j, e)).value, s.jobs[j].p;
    assert Sound(At(s.repos, p.repo)) && JobInv(s.repos, s.jobs[j]);
    PullStepSafe(At(s.repos, p.repo), p, e);
    assert forall name :: name != p.repo ==> At(s'.repos, name) == At(s.repos, name);
    OthersStable(s, s', j);
  }

  lemma TagEventSafe(s: Sys, j: nat, ok: bool, landed: bool)
    requires SysInv(s) && Step(s, OfTag(j, ok, landed)).Some?
    ensures SysInv(Step(s, OfTag(j, ok, landed)).value)
  {
    assert JobInv(s.repos, s.jobs[j]);
    TagStepSafe(s.repos, s.jobs[j].t, ok, landed);
    OthersStable(s, Step(s, OfTag(j, ok, landed)).value, j);
  }

  lemma RemoveSafe(s: Sys, repo: string, ref: Ref, dropped: set<string>)
    requires SysInv(s)
    ensures SysInv(Step(s, Remove(repo, ref, dropped)).value)
  {
    var s', r := Step(s, Remove(repo, ref, dropped)).value, At(s.repos, repo);
    assert Sound(r);
    assert forall d :: d in At(s'.repos, repo).manifests ==> d in r.manifests && At(s'.repos, repo).manifests[d] == r.manifests[d];
    assert forall name :: name != repo ==> At(s'.repos, name) == At(s.repos, name);
    OthersStable(s, s', |s.jobs|);
  }

  lemma {:induction false} StepSafe(s: Sys, e: Event)
    requires SysInv(s) && Honest(s, e) && Step(s, e).Some?
    ensures SysInv(Step(s, e).value)
  {
    match e
    case OfPull(j, pe) => PullEventSafe(s, j, pe);
    case OfTag(j, ok, landed) => TagEventSafe(s, j, ok, landed);
    case Remove(repo, ref, dropped) => RemoveSafe(s, repo, ref, dropped);
  }

  lemma {:induction false} RunSafe(s: Sys, es: seq<Event>)
    requires SysInv(s) && HonestRun(s, es) && Run(s, es).Some?
    ensures SysInv(Run(s, es).value)
    decreases |es|
  {
    if es != [] {
      StepSafe(s, es[0]);
      RunSafe(Step(s, es[0]).value, es[1..]);
    }
  }

  /** A pull of a manifest that can be pulled, or a tag, that has not done anything yet. */
  ghost predicate Begins(s: Repos, job: Job) {
    match job
    case Pulling(p) =>
      && 0 < |p.tasks| && p == NewPull(p.repo, p.tag, p.tasks[|p.tasks| - 1].desc, p.manifest)
      && KeepsClosed(At(s, p.repo), p.tasks[|p.tasks| - 1].desc, p.manifest)
    case Tagging(t) => t.pc == Reading
  }

  /** Any number of pulls, tags and removals over any repositories, interleaved call by call, failing,
      retrying and stopping anywhere: every repository stays closed, and everything in it is stored under
      its own digest. */
  lemma EveryRepositoryStaysClosed(s: Sys, es: seq<Event>)
    requires AllSound(s.repos) && (forall j :: 0 <= j < |s.jobs| ==> Begins(s.repos, s.jobs[j]))
    requires HonestRun(s, es) && Run(s, es).Some?
    ensures forall name :: Closed(At(Run(s, es).value.repos, name)) && Addressed(At(Run(s, es).value.repos, name))
  {
    forall j | 0 <= j < |s.jobs| ensures JobInv(s.repos, s.jobs[j]) {
      assert Begins(s.repos, s.jobs[j]);
      if s.jobs[j].Pulling? {
        var p := s.jobs[j].p;
        NewPullInv(At(s.repos, p.repo), p.repo, p.tag, p.tasks[|p.tasks| - 1].desc, p.manifest);
      }
    }
    RunSafe(s, es);
    assert forall name :: Sound(At(Run(s, es).value.repos, name));
  }

  // ---------------------------------------------------------------- a tag among the others

  /** A run, one event longer. */
  lemma {:induction false} RunSnoc(s: Sys, es: seq<Event>)
    requires es != []
    ensures Run(s, es) == match Run(s, es[..|es| - 1]) case None => None case Some(s1) => Step(s1, es[|es| - 1])
    decreases |es|
  {
    if |es| == 1 {
      assert es[..0] == [] && es[1..] == [];
    } else {
      var before := es[..|es| - 1];
      assert before[0] == es[0] && before[1..] == es[1..][..|es| - 2];
      if Step(s, es[0]).Some? { RunSnoc(Step(s, es[0]).value, es[1..]); }
    }
  }

  /** The repositories after `k` events. */
  ghost function ReposAfter(s: Sys, es: seq<Event>, k: nat): Repos
    requires k <= |es| && Run(s, es[..k]).Some?
  {
    Run(s, es[..k]).value.repos
  }

  /** After `k` events the tag in a repository led to a manifest. */
  ghost predicate LedTo(s: Sys, es: seq<Event>, k: int, repo: string, tag: string, m: Manifest) {
    0 <= k <= |es| && Run(s, es[..k]).Some? && Resolve(At(ReposAfter(s, es, k), repo), tag) == Some(Doc(m))
  }

  /** What a tag has in hand was what its source led to; once it is done its target has led to the same, later. */
  ghost predicate TagStory(s: Sys, es: seq<Event>, t: TagJob) {
    && (t.pc.Mounting? || t.pc.Putting? ==> exists k :: LedTo(s, es, k, t.src, t.srcTag, t.pc.body))
    && (t.pc.Tagged? ==>
          exists k1, k2 :: k1 < k2 && LedTo(s, es, k1, t.src, t.srcTag, t.pc.body) && LedTo(s, es, k2, t.dst, t.dstTag, t.pc.body))
  }

  lemma LedToLonger(s: Sys, es: seq<Event>, k: int, repo: string, tag: string, m: Manifest)
    requires es != [] && LedTo(s, es[..|es| - 1], k, repo, tag, m)
    ensures LedTo(s, es, k, repo, tag, m)
  {
    assert es[..|es| - 1][..k] == es[..k];
  }

  lemma StoryLonger(s: Sys, es: seq<Event>, t: TagJob)
    requires es != [] && TagStory(s, es[..|es| - 1], t)
    ensures TagStory(s, es, t)
  {
    var before := es[..|es| - 1];
    if t.pc.Mounting? || t.pc.Putting? {
      var k :| LedTo(s, before, k, t.src, t.srcTag, t.pc.body);
      LedToLonger(s, es, k, t.src, t.srcTag, t.pc.body);
    }
    if t.pc.Tagged? {
      var k1, k2 :| k1 < k2 && LedTo(s, before, k1, t.src, t.srcTag, t.pc.body) && LedTo(s, before, k2, t.dst, t.dstTag, t.pc.body);
      LedToLonger(s, es, k1, t.src, t.srcTag, t.pc.body);
      LedToLonger(s, es, k2, t.dst, t.dstTag, t.pc.body);
    }
  }

  /** One call of a tag at the end of a run. */
  lemma StoryNext(s: Sys, es: seq<Event>, t: TagJob, ok: bool, landed: bool, t': TagJob)
    requires es != [] && Run(s, es).Some? && Run(s, es[..|es| - 1]).Some?
    requires TagStory(s, es[..|es| - 1], t)
    requires TagStep(Run(s, es[..|es| - 1]).value.repos, t, ok, landed) == Some((Run(s, es).value.repos, t'))
    ensures TagStory(s, es, t')
  {
    var before, n := es[..|es| - 1], |es|;
    assert es[..n] == es && before[..n - 1] == before;
    if t.pc == Reading {
      if t'.pc.Mounting? {
        assert LedTo(s, before, n - 1, t.src, t.srcTag, t'.pc.body);
        LedToLonger(s, es, n - 1, t.src, t.srcTag, t'.pc.body);
      }
    } else {
      var k :| LedTo(s, before, k, t.src, t.srcTag, t.pc.body);
      LedToLonger(s, es, k, t.src, t.srcTag, t.pc.body);
      if t'.pc.Tagged? { assert LedTo(s, es, n, t.dst, t.dstTag, t'.pc.body); }
    }
  }

  lemma {:induction false} TagStories(s: Sys, es: seq<Event>, j: nat)
    requires j < |s.jobs| && s.jobs[j].Tagging? && s.jobs[j].t.pc == Reading && Run(s, es).Some?
    ensures var s' := Run(s, es).value;
            && j < |s'.jobs| && s'.jobs[j].Tagging? && TagStory(s, es, s'.jobs[j].t) && s'.jobs[j].t.(pc := Reading) == s.jobs[j].t
    decreases |es|
  {
    if es != [] {
      var before, e := es[..|es| - 1], es[|es| - 1];
      RunSnoc(s, es);
      TagStories(s, before, j);
      var s1 := Run(s, before).value;
      if e.OfTag? && e.j == j {
        StoryNext(s, es, s1.jobs[j].t, e.ok, e.landed, Run(s, es).value.jobs[j].t);
      } else {
        StoryLonger(s, es, s1.jobs[j].t);
      }
    }
  }

  /** In every run of pulls, tags and removals: a tag that has returned without an error has read a manifest its source
      led to, and later its target led to that very manifest. */
  lemma TaggedWhatItRead(s: Sys, es: seq<Event>, j: nat, m: Manifest)
    requires j < |s.jobs| && s.jobs[j].Tagging? && s.jobs[j].t.pc == Reading && Run(s, es).Some?
    requires j < |Run(s, es).value.jobs| && Run(s, es).value.jobs[j] == Tagging(s.jobs[j].t.(pc := Tagged(m)))
    ensures exists k1, k2 :: k1 < k2
              && LedTo(s, es, k1, s.jobs[j].t.src, s.jobs[j].t.srcTag, m) && LedTo(s, es, k2, s.jobs[j].t.dst, s.jobs[j].t.dstTag, m)
  {
    TagStories(s, es, j);
  }
}
