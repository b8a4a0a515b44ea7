/** `Push`: the same order against a remote registry, asking before sending, and tagging the manifest. */
module Push {
  import opened Options
  import opened Oci
  import opened Store
  import opened Scheduling

  /** Where an attempt stands: before `Exists`, before `FetchReference`, before the repairing `Tag`,
      before the write, before the `Tag` that follows a manifest write. */
  datatype Pc = Asking | Resolving | Retagging | Sending | Tagging

  datatype Move =
    | Start | Abandon | Attempt
    | AskFails(e: Failure) | Asked
    | Resolved(found: bool)
    | TagFails(e: Failure) | TagWorks
    | SendFails(e: Failure, landed: bool) | Sent

  /** One push: the local repository it reads, the manifest read from it, its tag and its tasks. `inline` is what
      descriptors carry in their own data field: the manifest's always its bytes, a part's hardly ever anything. */
  datatype Push = Push(src: Repo, inline: map<Digest, Content>, tag: string, manifest: Manifest, tasks: seq<Task<Pc>>, cancelled: bool)

  datatype Event = Move(i: nat, m: Move) | Cancel

  function ManifestDesc(m: Manifest): Descriptor {
    Descriptor(m.mediaType, Sha256(Doc(m)))
  }

  function NewPush(src: Repo, inline: map<Digest, Content>, tag: string, m: Manifest): Push {
    Push(src, inline[Sha256(Doc(m)) := Doc(m)], tag, m, Tasks(m.layers, m.config, ManifestDesc(m), false), false)
  }

  /** What is sent for a descriptor: a manifest's inline bytes, or the local blob; the registry takes nothing but under
      its own digest, and no manifest that is none. */
  function Outgoing(p: Push, desc: Descriptor): Option<Content> {
    if desc.mediaType.ImageManifest? then
      if desc.digest in p.inline && Sha256(p.inline[desc.digest]) == desc.digest && p.inline[desc.digest].Doc?
      then Some(p.inline[desc.digest]) else None
    else if desc.digest in p.src.blobs && Sha256(p.src.blobs[desc.digest]) == desc.digest then Some(p.src.blobs[desc.digest])
    else None
  }

  /** `pushIfNotExist`, one remote call a move. */
  function TaskMove(r: Repo, p: Push, t: Task<Pc>, m: Move): Option<(Repo, Task<Pc>)> {
    var isManifest := t.desc.mediaType.ImageManifest?;
    match t.phase
    case Waiting | Won | Lost => None
    case Ready => if m == Attempt then Some((r, Begin(t, Asking, false))) else None
    case Busy(at) =>
      match (at, m)
      case (Asking, AskFails(e)) => Some((r, Finish(t, false, Some(e))))
      case (Asking, Asked) =>
        Some((r, if !Present(r, t.desc) then t.(phase := Busy(Sending))
                 else if isManifest then t.(phase := Busy(Resolving))
                 else Finish(t, false, None)))
      case (Resolving, Resolved(found)) =>
        if found && p.tag !in r.tags then None
        else Some((r, if found then Finish(t, false, None) else t.(phase := Busy(Retagging))))
      case (Retagging, TagFails(e)) => Some((r, Finish(t, false, Some(e))))
      case (Retagging, TagWorks) => Some((WithTag(r, p.tag, t.desc.digest), Finish(t, false, None)))
      case (Sending, SendFails(e, landed)) =>
        (match Outgoing(p, t.desc)
         case Some(body) =>
           Some((if !landed then r else if isManifest then WithManifest(r, body) else WithBlob(r, body), Finish(t, false, Some(e))))
         case None => if landed then None else Some((r, Finish(t, false, Some(e)))))
      case (Sending, Sent) =>
        (match Outgoing(p, t.desc)
         case Some(body) =>
           Some(if isManifest then (WithManifest(r, body), t.(phase := Busy(Tagging))) else (WithBlob(r, body), Finish(t, false, None)))
         case None => None)
      case (Tagging, TagFails(e)) => Some((r, Finish(t, false, Some(e))))
      case (Tagging, TagWorks) => Some((WithTag(r, p.tag, t.desc.digest), Finish(t, false, None)))
      case _ => None
  }

  function Step(r: Repo, p: Push, e: Event): Option<(Repo, Push)> {
    match e
    case Cancel => if p.cancelled then None else Some((r, p.(cancelled := true)))
    case Move(i, m) =>
      if |p.tasks| < 2 || |p.tasks| <= i then None
      else
        var t := p.tasks[i];
        if m.Start? then
          if t.phase == Waiting && Gate(p.tasks, i) then Some((r, p.(tasks := p.tasks[i := t.(phase := Ready)]))) else None
        else if m.Abandon? then
          if (t.phase == Waiting || t.phase == Ready) && Gate(p.tasks, i) && Cancelled(p.tasks, i, p.cancelled)
          then Some((r, p.(tasks := p.tasks[i := t.(phase := Lost)]))) else None
        else
          match TaskMove(r, p, t, m)
          case None => None
          case Some((r', t')) => Some((r', p.(tasks := p.tasks[i := t'])))
  }

  function Run(r: Repo, p: Push, es: seq<Event>): Option<(Repo, Push)>
    decreases |es|
  {
    if es == [] then Some((r, p))
    else
      match Step(r, p, es[0])
      case None => None
      case Some((r1, p1)) => Run(r1, p1, es[1..])
  }

  predicate Succeeded(p: Push) {
    0 < |p.tasks| && p.tasks[|p.tasks| - 1].phase == Won
  }

  // ---------------------------------------------------------------- closure of the remote

  /** A descriptor that is on the remote, or that can be sent there. */
  ghost predicate Sendable(r: Repo, p: Push, desc: Descriptor) {
    Present(r, desc) || Outgoing(p, desc).Some?
  }

  /** Whether the push can keep a remote closed: a condition on the remote and on what the push has to send. */
  ghost predicate KeepsClosed(r: Repo, p: Push) {
    Orderly(p.manifest, p.manifest.mediaType.ImageManifest?, r.blobs.Keys, d => Sendable(r, p, d))
  }

  ghost predicate Shape(p: Push) {
    var n := |p.manifest.layers|;
    && |p.tasks| == n + 2
    && (forall i :: 0 <= i <= n ==> p.tasks[i].desc == (if i < n then p.manifest.layers[i] else p.manifest.config))
    && p.tasks[n + 1].desc == ManifestDesc(p.manifest)
  }

  /** What a task that is over or past its question knows. */
  ghost predicate Knows(r: Repo, t: Task<Pc>) {
    && (t.phase == Won ==> Present(r, t.desc))
    && (t.phase.Busy? && t.phase.at != Asking && t.phase.at != Sending ==> t.desc.mediaType.ImageManifest? && t.desc.digest in r.manifests)
  }

  /** The same push: what it reads and sends never changes. */
  ghost predicate Same(p: Push, q: Push) {
    q.src == p.src && q.inline == p.inline && q.tag == p.tag && q.manifest == p.manifest && |q.tasks| == |p.tasks|
  }

  /** Nothing is there but what was there or could be sent. */
  ghost predicate NothingElse(r0: Repo, r: Repo, p: Push) {
    forall d: Descriptor :: Present(r, d) ==> Sendable(r0, p, d)
  }

  /** `r0` is the remote at the start: nothing is there since but what could be sent. */
  ghost predicate Inv(r0: Repo, r: Repo, p: Push) {
    && Addressed(r) && Shape(p) && Ordered(p.tasks)
    && r0.blobs.Keys <= r.blobs.Keys && r0.manifests.Keys <= r.manifests.Keys
    && NothingElse(r0, r, p)
    && (forall i :: 0 <= i < |p.tasks| ==> Knows(r, p.tasks[i]))
  }

  lemma NewPushInv(r: Repo, src: Repo, inline: map<Digest, Content>, tag: string, m: Manifest)
    requires Addressed(r)
    ensures Inv(r, r, NewPush(src, inline, tag, m))
  {
    var p, n := NewPush(src, inline, tag, m), |m.layers|;
    assert forall i :: 0 <= i < n ==> p.tasks[i] == Fresh(m.layers[i], false);
    assert p.tasks[n] == Fresh(m.config, false) && p.tasks[n + 1] == Fresh(ManifestDesc(m), false);
  }

  /** What is sent for a descriptor can be looked up where its media type says, and nowhere else. */
  lemma SentIsSendable(r0: Repo, r: Repo, p: Push, desc: Descriptor, body: Content, d: Descriptor)
    requires Outgoing(p, desc) == Some(body) && (Present(r, d) ==> Sendable(r0, p, d))
    ensures Present(if desc.mediaType.ImageManifest? then WithManifest(r, body) else WithBlob(r, body), d) ==> Sendable(r0, p, d)
  {
  }

  lemma TaskMoveKnows(r: Repo, p: Push, t: Task<Pc>, m: Move)
    requires Addressed(r) && Knows(r, t) && TaskMove(r, p, t, m).Some?
    ensures var (r', t') := TaskMove(r, p, t, m).value;
            && Addressed(r') && r.blobs.Keys <= r'.blobs.Keys && r.manifests.Keys <= r'.manifests.Keys
            && Knows(r', t') && t'.desc == t.desc && t'.phase != Waiting
  {
  }

  /** A move writes nothing but what is sent. */
  lemma TaskMoveSends(r: Repo, p: Push, t: Task<Pc>, m: Move)
    requires TaskMove(r, p, t, m).Some?
    ensures var r', out := TaskMove(r, p, t, m).value.0, Outgoing(p, t.desc);
            || (r'.blobs == r.blobs && r'.manifests == r.manifests)
            || (out.Some? && t.phase == Busy(Sending)
                && var sent := if t.desc.mediaType.ImageManifest? then WithManifest(r, out.value) else WithBlob(r, out.value);
                   r'.blobs == sent.blobs && r'.manifests == sent.manifests)
  {
  }

  lemma TaskMoveSendable(r0: Repo, r: Repo, p: Push, t: Task<Pc>, m: Move)
    requires NothingElse(r0, r, p) && TaskMove(r, p, t, m).Some?
    ensures NothingElse(r0, TaskMove(r, p, t, m).value.0, p)
  {
    var r' := TaskMove(r, p, t, m).value.0;
    TaskMoveSends(r, p, t, m);
    forall d: Descriptor | Present(r', d) ensures Sendable(r0, p, d) {
      if r'.blobs == r.blobs && r'.manifests == r.manifests { assert Present(r, d); }
      else { SentIsSendable(r0, r, p, t.desc, Outgoing(p, t.desc).value, d); }
    }
  }

  lemma InvKept(r0: Repo, r: Repo, p: Push, i: nat, t: Task<Pc>, r': Repo)
    requires Inv(r0, r, p) && i < |p.tasks| && Addressed(r') && r.blobs.Keys <= r'.blobs.Keys && r.manifests.Keys <= r'.manifests.Keys
    requires NothingElse(r0, r', p) && Knows(r', t)
    requires t.desc == p.tasks[i].desc && Ordered(p.tasks[i := t])
    ensures Inv(r0, r', p.(tasks := p.tasks[i := t]))
  {
    var p' := p.(tasks := p.tasks[i := t]);
    forall k | 0 <= k < |p'.tasks| ensures Knows(r', p'.tasks[k]) { assert Knows(r, p.tasks[k]); }
    forall d: Descriptor | Present(r', d) ensures Sendable(r0, p', d) { assert Sendable(r0, p, d) && Outgoing(p', d) == Outgoing(p, d); }
  }

  lemma {:induction false} InvStep(r0: Repo, r: Repo, p: Push, e: Event)
    requires Inv(r0, r, p) && Step(r, p, e).Some?
    ensures var (r', p') := Step(r, p, e).value; Inv(r0, r', p') && Same(p, p')
  {
    if e.Move? {
      var (r', p') := Step(r, p, e).value;
      if !e.m.Start? && !e.m.Abandon? {
        TaskMoveKnows(r, p, p.tasks[e.i], e.m);
        TaskMoveSendable(r0, r, p, p.tasks[e.i], e.m);
      }
      OrderKept(p.tasks, e.i, p'.tasks[e.i]);
      InvKept(r0, r, p, e.i, p'.tasks[e.i], r');
    }
  }

  /** Layers that are over could be sent, and those stored as blobs are there. */
  lemma LayersThere(r0: Repo, r: Repo, p: Push)
    requires Inv(r0, r, p) && p.tasks[|p.tasks| - 2].phase != Waiting
    ensures (forall l :: l in p.manifest.layers ==> Sendable(r0, p, l)) && PlainDigests(p.manifest.layers) <= r.blobs.Keys
  {
    forall l | l in p.manifest.layers ensures Sendable(r0, p, l) && (!l.mediaType.ImageManifest? ==> l.digest in r.blobs) {
      var i :| 0 <= i < |p.manifest.layers| && p.manifest.layers[i] == l;
      assert Knows(r, p.tasks[i]);
    }
  }

  lemma PartsThere(r0: Repo, r: Repo, p: Push)
    requires Inv(r0, r, p) && p.tasks[|p.tasks| - 1].phase != Waiting
    ensures (forall d :: d in Parts(p.manifest) ==> Present(r, d) && Sendable(r0, p, d)) && PlainDigests(Parts(p.manifest)) <= r.blobs.Keys
  {
    var m, n := p.manifest, |p.manifest.layers|;
    LayersThere(r0, r, p);
    LayersAreParts(m);
    assert Knows(r, p.tasks[n]);
    forall d | d in Parts(m) ensures Present(r, d) && Sendable(r0, p, d) {
      if d in m.layers {
        var i :| 0 <= i < n && m.layers[i] == d;
        assert Knows(r, p.tasks[i]);
      }
    }
  }

  /** A manifest that is about to be sent rests on what is there. */
  lemma SendingRests(r0: Repo, r: Repo, p: Push, i: nat)
    requires Inv(r0, r, p) && KeepsClosed(r0, p) && i < |p.tasks|
    requires p.tasks[i].phase == Busy(Sending) && p.tasks[i].desc.mediaType.ImageManifest? && Outgoing(p, p.tasks[i].desc).Some?
    ensures References(Outgoing(p, p.tasks[i].desc).value) <= r.blobs.Keys
  {
    var d, n := p.tasks[i].desc, |p.manifest.layers|;
    assert Sendable(r0, p, d) && Outgoing(p, d).value == d.digest.of;
    if i == n + 1 {
      PartsThere(r0, r, p);
    } else if i == n {
      LayersThere(r0, r, p);
    } else {
      assert d in p.manifest.layers;
    }
  }

  lemma StoredClosed(r: Repo, body: Content)
    requires Closed(r) && References(body) <= r.blobs.Keys
    ensures Closed(WithManifest(r, body))
  {
  }

  lemma ClosedStep(r0: Repo, r: Repo, p: Push, e: Event)
    requires Inv(r0, r, p) && KeepsClosed(r0, p) && Closed(r) && Step(r, p, e).Some?
    ensures Closed(Step(r, p, e).value.0)
  {
    if e.Move? && !e.m.Start? && !e.m.Abandon? {
      var t, r' := p.tasks[e.i], Step(r, p, e).value.0;
      TaskMoveSends(r, p, t, e.m);
      if r'.manifests != r.manifests {
        SendingRests(r0, r, p, e.i);
        StoredClosed(r, Outgoing(p, t.desc).value);
      } else {
        TaskMoveKnows(r, p, t, e.m);
      }
    }
  }

  lemma SameKeepsClosed(r0: Repo, p: Push, q: Push)
    requires KeepsClosed(r0, p) && Same(p, q)
    ensures KeepsClosed(r0, q)
  {
    forall d ensures Sendable(r0, q, d) <==> Sendable(r0, p, d) { assert Outgoing(q, d) == Outgoing(p, d); }
    var m, can, can' := p.manifest, (d: Descriptor) => Sendable(r0, p, d), (d: Descriptor) => Sendable(r0, q, d);
    assert forall d :: can'(d) <==> can(d);
    assert Orderly(m, m.mediaType.ImageManifest?, r0.blobs.Keys, can);
  }

  lemma {:induction false} InvRun(r0: Repo, r: Repo, p: Push, es: seq<Event>)
    requires Inv(r0, r, p) && Run(r, p, es).Some?
    ensures var (r', p') := Run(r, p, es).value; Inv(r0, r', p') && Same(p, p') && (KeepsClosed(r0, p) && Closed(r) ==> Closed(r'))
    decreases |es|
  {
    if es != [] {
      var (r1, p1) := Step(r, p, es[0]).value;
      InvStep(r0, r, p, es[0]);
      if KeepsClosed(r0, p) && Closed(r) {
        ClosedStep(r0, r, p, es[0]);
        SameKeepsClosed(r0, p, p1);
      }
      InvRun(r0, r1, p1, es[1..]);
    }
  }

  /** A push that returns without an error has put the config, every layer and the manifest on the remote, and at every
      moment everything there lies under its own digest. */
  lemma PushStoresEverything(r: Repo, src: Repo, inline: map<Digest, Content>, tag: string, m: Manifest, es: seq<Event>)
    requires Addressed(r) && Run(r, NewPush(src, inline, tag, m), es).Some?
    ensures var (r', p') := Run(r, NewPush(src, inline, tag, m), es).value;
            Addressed(r') && (Succeeded(p') ==> (forall d :: d in Parts(m) ==> Present(r', d)) && Present(r', ManifestDesc(m)))
    ensures var (r', p') := Run(r, NewPush(src, inline, tag, m), es).value;
            Succeeded(p') ==> AllSendable(r, NewPush(src, inline, tag, m))
  {
    var p := NewPush(src, inline, tag, m);
    NewPushInv(r, src, inline, tag, m);
    InvRun(r, r, p, es);
    var (r', p') := Run(r, p, es).value;
    if Succeeded(p') {
      PartsThere(r, r', p');
      assert Knows(r', p'.tasks[|p'.tasks| - 1]);
      forall d | d in Parts(m) ensures Sendable(r, p, d) { assert Sendable(r, p', d) && Outgoing(p', d) == Outgoing(p, d); }
      assert Sendable(r, p', ManifestDesc(m)) && Outgoing(p', ManifestDesc(m)) == Outgoing(p, ManifestDesc(m));
    }
  }

  /** Every descriptor of the push, its manifest's among them, is on the remote or can be sent. */
  ghost predicate AllSendable(r: Repo, p: Push) {
    (forall d :: d in Parts(p.manifest) ==> Sendable(r, p, d)) && Sendable(r, p, ManifestDesc(p.manifest))
  }

  // ---------------------------------------------------------------- building runs

  function Last(p: Push): Task<Pc>
    requires 0 < |p.tasks|
  {
    p.tasks[|p.tasks| - 1]
  }

  lemma {:induction false} RunAppend(r: Repo, p: Push, es: seq<Event>, fs: seq<Event>)
    requires Run(r, p, es).Some?
    ensures Run(r, p, es + fs) == Run(Run(r, p, es).value.0, Run(r, p, es).value.1, fs)
    decreases |es|
  {
    if es == [] {
      assert es + fs == fs;
    } else {
      assert (es + fs)[1..] == es[1..] + fs;
      var (r1, p1) := Step(r, p, es[0]).value;
      RunAppend(r1, p1, es[1..], fs);
    }
  }

  function With(p: Push, i: nat, t: Task<Pc>): Push
    requires i < |p.tasks|
  {
    p.(tasks := p.tasks[i := t])
  }

  /** One move of task `i`, at the head of a run. */
  lemma RunMove(r: Repo, p: Push, i: nat, t: Task<Pc>, m: Move, es: seq<Event>)
    requires 2 <= |p.tasks| && i < |p.tasks| && !m.Start? && !m.Abandon? && TaskMove(r, p, t, m).Some?
    ensures var (r1, t1) := TaskMove(r, p, t, m).value;
            Run(r, With(p, i, t), [Move(i, m)] + es) == Run(r1, With(p, i, t1), es)
  {
    var (r1, t1) := TaskMove(r, p, t, m).value;
    assert ([Move(i, m)] + es)[1..] == es;
    assert With(p, i, t).tasks[i := t1] == With(p, i, t1).tasks;
    assert Outgoing(With(p, i, t), t.desc) == Outgoing(p, t.desc);
    assert TaskMove(r, With(p, i, t), t, m) == TaskMove(r, p, t, m);
  }

  lemma StartFirst(r: Repo, p: Push, i: nat, es: seq<Event>)
    requires 2 <= |p.tasks| && i < |p.tasks| && p.tasks[i].phase == Waiting && Gate(p.tasks, i)
    ensures Run(r, p, [Move(i, Start)] + es) == Run(r, With(p, i, p.tasks[i].(phase := Ready)), es)
  {
    assert ([Move(i, Start)] + es)[1..] == es;
    assert Step(r, p, Move(i, Start)) == Some((r, With(p, i, p.tasks[i].(phase := Ready))));
  }

  /** The remote after an undisturbed copy of one descriptor. A manifest among the parts is tagged too, with the tag of
      the push: when it is there already because looking up the tag failed, and else after it was sent. */
  function Copied(r: Repo, p: Push, d: Descriptor): Repo
    requires Present(r, d) || Outgoing(p, d).Some?
  {
    var there := if Present(r, d) then r
                 else if d.mediaType.ImageManifest? then WithManifest(r, Outgoing(p, d).value) else WithBlob(r, Outgoing(p, d).value);
    if d.mediaType.ImageManifest? then WithTag(there, p.tag, d.digest) else there
  }

  /** One undisturbed attempt. */
  lemma {:induction false} AttemptBlob(r: Repo, p: Push, i: nat, t: Task<Pc>) returns (es: seq<Event>)
    requires 2 <= |p.tasks| && i < |p.tasks| && t.phase == Ready && !t.desc.mediaType.ImageManifest?
    requires Present(r, t.desc) || Outgoing(p, t.desc).Some?
    ensures Run(r, With(p, i, t), es) == Some((Copied(r, p, t.desc), With(p, i, Finish(Begin(t, Asking, false), false, None))))
  {
    var t1 := Begin(t, Asking, false);
    if Present(r, t.desc) {
      es := [Move(i, Asked)] + [];
      RunMove(r, p, i, t1, Asked, []);
    } else {
      es := [Move(i, Sent)] + [];
      RunMove(r, p, i, t1.(phase := Busy(Sending)), Sent, []);
      RunMove(r, p, i, t1, Asked, es);
      es := [Move(i, Asked)] + es;
    }
    RunMove(r, p, i, t, Attempt, es);
    es := [Move(i, Attempt)] + es;
  }

  lemma {:induction false} AttemptManifest(r: Repo, p: Push, i: nat, t: Task<Pc>) returns (es: seq<Event>)
    requires 2 <= |p.tasks| && i < |p.tasks| && t.phase == Ready && t.desc.mediaType.ImageManifest?
    requires Present(r, t.desc) || Outgoing(p, t.desc).Some?
    ensures Run(r, With(p, i, t), es) == Some((Copied(r, p, t.desc), With(p, i, Finish(Begin(t, Asking, false), false, None))))
  {
    var t1 := Begin(t, Asking, false);
    es := [Move(i, TagWorks)] + [];
    if Present(r, t.desc) {
      RunMove(r, p, i, t1.(phase := Busy(Retagging)), TagWorks, []);
      RunMove(r, p, i, t1.(phase := Busy(Resolving)), Resolved(false), es);
      es := [Move(i, Resolved(false))] + es;
    } else {
      var r1 := WithManifest(r, Outgoing(p, t.desc).value);
      RunMove(r1, p, i, t1.(phase := Busy(Tagging)), TagWorks, []);
      RunMove(r, p, i, t1.(phase := Busy(Sending)), Sent, es);
      es := [Move(i, Sent)] + es;
    }
    RunMove(r, p, i, t1, Asked, es);
    es := [Move(i, Asked)] + es;
    RunMove(r, p, i, t, Attempt, es);
    es := [Move(i, Attempt)] + es;
  }

  lemma {:induction false} CopyTask(r: Repo, p: Push, i: nat) returns (es: seq<Event>)
    requires 2 <= |p.tasks| && i < |p.tasks| && p.tasks[i].phase == Waiting && Gate(p.tasks, i)
    requires Present(r, p.tasks[i].desc) || Outgoing(p, p.tasks[i].desc).Some?
    ensures var t := p.tasks[i].(phase := Ready);
            Run(r, p, es) == Some((Copied(r, p, t.desc), With(p, i, Finish(Begin(t, Asking, false), false, None))))
  {
    var t := p.tasks[i].(phase := Ready);
    if t.desc.mediaType.ImageManifest? { es := AttemptManifest(r, p, i, t); } else { es := AttemptBlob(r, p, i, t); }
    StartFirst(r, p, i, es);
    es := [Move(i, Start)] + es;
  }

  ghost predicate CanSend(r: Repo, p: Push, ds: seq<Descriptor>) {
    forall d :: d in ds ==> Sendable(r, p, d)
  }

  function CopiedAll(r: Repo, p: Push, ds: seq<Descriptor>): Repo
    decreases |ds|
  {
    if ds == [] then r
    else if Present(r, ds[0]) || Outgoing(p, ds[0]).Some? then CopiedAll(Copied(r, p, ds[0]), p, ds[1..])
    else r
  }

  lemma SameCopies(r: Repo, p: Push, q: Push, ds: seq<Descriptor>)
    requires Same(p, q)
    ensures CopiedAll(r, q, ds) == CopiedAll(r, p, ds)
    decreases |ds|
  {
    if ds != [] {
      assert Outgoing(q, ds[0]) == Outgoing(p, ds[0]);
      if Present(r, ds[0]) || Outgoing(p, ds[0]).Some? { SameCopies(Copied(r, p, ds[0]), p, q, ds[1..]); }
    }
  }

  lemma CopiedOne(r: Repo, p: Push, d: Descriptor)
    requires Sendable(r, p, d)
    ensures Copied(r, p, d).blobs.Keys == r.blobs.Keys + PlainDigests([d])
    ensures Copied(r, p, d).manifests.Keys == r.manifests.Keys + NestedDigests([d])
    ensures NestedDigests([d]) == {} ==> Copied(r, p, d).tags == r.tags
    ensures NestedDigests([d]) != {} ==> p.tag in Copied(r, p, d).tags && Copied(r, p, d).tags[p.tag] in NestedDigests([d])
  {
    assert d in [d];
    if d.mediaType.ImageManifest? { assert d.digest in NestedDigests([d]); }
  }

  lemma CanSendMore(r: Repo, r': Repo, p: Push, ds: seq<Descriptor>)
    requires (forall d :: d in ds ==> Sendable(r, p, d)) && r.blobs.Keys <= r'.blobs.Keys && r.manifests.Keys <= r'.manifests.Keys
    ensures CanSend(r', p, ds)
  {
    forall d | d in ds ensures Sendable(r', p, d) { assert Sendable(r, p, d); }
  }

  /** What copying adds. */
  lemma {:induction false} CopiedAdds(r: Repo, p: Push, ds: seq<Descriptor>)
    requires CanSend(r, p, ds)
    ensures CopiedAll(r, p, ds).blobs.Keys == r.blobs.Keys + PlainDigests(ds)
    ensures CopiedAll(r, p, ds).manifests.Keys == r.manifests.Keys + NestedDigests(ds)
    decreases |ds|
  {
    if ds != [] {
      var d, rest := ds[0], ds[1..];
      assert ds == [d] + rest && Sendable(r, p, d);
      CopiedOne(r, p, d);
      DigestsAppend([d], rest);
      CanSendMore(r, Copied(r, p, d), p, rest);
      CopiedAdds(Copied(r, p, d), p, rest);
    }
  }

  /** The tag goes to the last manifest among the descriptors, if there is one. */
  lemma {:induction false} CopiedTags(r: Repo, p: Push, ds: seq<Descriptor>)
    requires CanSend(r, p, ds)
    ensures NestedDigests(ds) == {} ==> CopiedAll(r, p, ds).tags == r.tags
    ensures NestedDigests(ds) != {} ==> p.tag in CopiedAll(r, p, ds).tags && CopiedAll(r, p, ds).tags[p.tag] in NestedDigests(ds)
    decreases |ds|
  {
    if ds != [] {
      var d, rest := ds[0], ds[1..];
      assert ds == [d] + rest && Sendable(r, p, d);
      CopiedOne(r, p, d);
      DigestsAppend([d], rest);
      CanSendMore(r, Copied(r, p, d), p, rest);
      CopiedTags(Copied(r, p, d), p, rest);
    }
  }

  lemma {:induction false} CopiedAddressed(r: Repo, p: Push, ds: seq<Descriptor>)
    requires Addressed(r)
    ensures Addressed(CopiedAll(r, p, ds))
    decreases |ds|
  {
    if ds != [] && (Present(r, ds[0]) || Outgoing(p, ds[0]).Some?) { CopiedAddressed(Copied(r, p, ds[0]), p, ds[1..]); }
  }

  lemma {:induction false} CopyUpTo(r: Repo, p: Push, ds: seq<Descriptor>, i: nat, k: nat) returns (es: seq<Event>, p': Push)
    requires Describes(p.tasks, ds) && ReadyFor(p.tasks, i) && i <= k < |ds| && CanSend(r, p, ds[i..k])
    ensures Run(r, p, es) == Some((CopiedAll(r, p, ds[i..k]), p')) && Same(p, p') && Describes(p'.tasks, ds) && ReadyFor(p'.tasks, k)
    decreases k - i
  {
    if i == k {
      assert ds[i..k] == [];
      es, p' := [], p;
    } else {
      var d := ds[i];
      assert d in ds[i..k] && ds[i..k][0] == d && ds[i..k][1..] == ds[i + 1..k];
      assert Sendable(r, p, d);
      var first := CopyTask(r, p, i);
      var (r1, p1) := Run(r, p, first).value;
      CopiedOne(r, p, d);
      NextCanSend(r, r1, p, p1, ds[i..k]);
      var rest;
      rest, p' := CopyUpTo(r1, p1, ds, i + 1, k);
      SameCopies(r1, p, p1, ds[i + 1..k]);
      RunAppend(r, p, first, rest);
      es := first + rest;
    }
  }

  lemma NextCanSend(r: Repo, r1: Repo, p: Push, p1: Push, ds: seq<Descriptor>)
    requires ds != [] && CanSend(r, p, ds) && Same(p, p1) && r.blobs.Keys <= r1.blobs.Keys && r.manifests.Keys <= r1.manifests.Keys
    ensures CanSend(r1, p1, ds[1..])
  {
    forall d | d in ds[1..] ensures Sendable(r1, p1, d) { assert Sendable(r, p, d) && Outgoing(p1, d) == Outgoing(p, d); }
  }

  lemma NewPushReady(src: Repo, inline: map<Digest, Content>, tag: string, m: Manifest)
    ensures Describes(NewPush(src, inline, tag, m).tasks, Front(m) + [ManifestDesc(m)]) && ReadyFor(NewPush(src, inline, tag, m).tasks, 0)
    ensures (Front(m) + [ManifestDesc(m)])[0..|m.layers|] == m.layers && (Front(m) + [ManifestDesc(m)])[0..|m.layers| + 1] == Front(m)
  {
    var p := NewPush(src, inline, tag, m);
    assert forall k :: 0 <= k < |p.tasks| ==> p.tasks[k] == Fresh((Front(m) + [ManifestDesc(m)])[k], false);
  }

  /** A new push that has copied all parts. */
  lemma CopyParts(r: Repo, src: Repo, inline: map<Digest, Content>, tag: string, m: Manifest) returns (es: seq<Event>, r1: Repo, p1: Push)
    requires CanSend(r, NewPush(src, inline, tag, m), Parts(m))
    ensures Run(r, NewPush(src, inline, tag, m), es) == Some((r1, p1)) && Same(NewPush(src, inline, tag, m), p1)
    ensures ReadyFor(p1.tasks, |m.layers| + 1) && Last(p1).desc == ManifestDesc(m)
    ensures r1.blobs.Keys == r.blobs.Keys + PlainDigests(Parts(m)) && r1.manifests.Keys == r.manifests.Keys + NestedDigests(Parts(m))
    ensures NestedDigests(Parts(m)) == {} ==> r1.tags == r.tags
    ensures NestedDigests(Parts(m)) != {} ==> tag in r1.tags && r1.tags[tag] in NestedDigests(Parts(m))
    ensures Addressed(r) ==> Addressed(r1)
  {
    var p, ds, n := NewPush(src, inline, tag, m), Front(m) + [ManifestDesc(m)], |m.layers|;
    NewPushReady(src, inline, tag, m);
    FrontParts(m);
    es, p1 := CopyUpTo(r, p, ds, 0, n + 1);
    r1 := CopiedAll(r, p, Front(m));
    CopiedAdds(r, p, Front(m));
    CopiedTags(r, p, Front(m));
    if Addressed(r) { CopiedAddressed(r, p, Front(m)); }
  }

  // ---------------------------------------------------------------- closure, exactly

  ghost predicate AlwaysCloses(r: Repo, p: Push) {
    forall es :: Run(r, p, es).Some? ==> Closed(Run(r, p, es).value.0)
  }

  /** A task whose turn has come, for a manifest that does not rest on what is there. */
  lemma OpenedBy(r: Repo, p: Push, i: nat) returns (es: seq<Event>)
    requires Addressed(r) && 2 <= |p.tasks| && i < |p.tasks| && p.tasks[i].phase == Waiting && Gate(p.tasks, i)
    requires Sendable(r, p, p.tasks[i].desc) && !Rests(p.tasks[i].desc, r.blobs.Keys)
    ensures Run(r, p, es).Some? && !Closed(Run(r, p, es).value.0)
  {
    es := CopyTask(r, p, i);
    NotClosed(Run(r, p, es).value.0, p.tasks[i].desc.digest.of);
  }

  lemma NestedLayerOpens(r: Repo, src: Repo, inline: map<Digest, Content>, tag: string, m: Manifest, l: Descriptor) returns (es: seq<Event>)
    requires Addressed(r) && l in m.layers && Sendable(r, NewPush(src, inline, tag, m), l) && !Rests(l, r.blobs.Keys)
    ensures Run(r, NewPush(src, inline, tag, m), es).Some? && !Closed(Run(r, NewPush(src, inline, tag, m), es).value.0)
  {
    var p := NewPush(src, inline, tag, m);
    var i :| 0 <= i < |m.layers| && m.layers[i] == l;
    NewPushReady(src, inline, tag, m);
    es := OpenedBy(r, p, i);
  }

  lemma NestedConfigOpens(r: Repo, src: Repo, inline: map<Digest, Content>, tag: string, m: Manifest) returns (es: seq<Event>)
    requires Addressed(r) && CanSend(r, NewPush(src, inline, tag, m), m.layers) && Sendable(r, NewPush(src, inline, tag, m), m.config)
    requires !Rests(m.config, r.blobs.Keys + PlainDigests(m.layers))
    ensures Run(r, NewPush(src, inline, tag, m), es).Some? && !Closed(Run(r, NewPush(src, inline, tag, m), es).value.0)
  {
    var p, ds, n := NewPush(src, inline, tag, m), Front(m) + [ManifestDesc(m)], |m.layers|;
    NewPushReady(src, inline, tag, m);
    var p1;
    es, p1 := CopyUpTo(r, p, ds, 0, n);
    var r1 := CopiedAll(r, p, m.layers);
    CopiedAdds(r, p, m.layers);
    CopiedAddressed(r, p, m.layers);
    assert Sendable(r1, p1, m.config) by { assert Outgoing(p1, m.config) == Outgoing(p, m.config); }
    var more := OpenedBy(r1, p1, n);
    RunAppend(r, p, es, more);
    es := es + more;
  }

  lemma WholeManifestOpens(r: Repo, src: Repo, inline: map<Digest, Content>, tag: string, m: Manifest) returns (es: seq<Event>)
    requires Addressed(r) && CanSend(r, NewPush(src, inline, tag, m), Parts(m)) && m.mediaType.ImageManifest?
    requires !(References(Doc(m)) <= r.blobs.Keys + PlainDigests(Parts(m)))
    ensures Run(r, NewPush(src, inline, tag, m), es).Some? && !Closed(Run(r, NewPush(src, inline, tag, m), es).value.0)
  {
    var p := NewPush(src, inline, tag, m);
    var r1, p1;
    es, r1, p1 := CopyParts(r, src, inline, tag, m);
    var more := OpenedBy(r1, p1, |m.layers| + 1);
    RunAppend(r, p, es, more);
    es := es + more;
  }

  /** In every interleaving and retry pattern, at every moment, the remote holds a manifest only with its config and all
      its layers, if and only if each manifest on the way of the push rests on what is there when its turn comes, as far
      as the push can get to it. Where no part is itself a manifest this always holds. */
  lemma PushClosesExactly(r: Repo, src: Repo, inline: map<Digest, Content>, tag: string, m: Manifest)
    requires Sound(r)
    ensures AlwaysCloses(r, NewPush(src, inline, tag, m)) <==> KeepsClosed(r, NewPush(src, inline, tag, m))
    ensures PlainParts(m) ==> KeepsClosed(r, NewPush(src, inline, tag, m))
  {
    var p := NewPush(src, inline, tag, m);
    if PlainParts(m) { PlainIsOrderly(m, m.mediaType.ImageManifest?, r.blobs.Keys, d => Sendable(r, p, d)); }
    if KeepsClosed(r, p) {
      NewPushInv(r, src, inline, tag, m);
      forall es | Run(r, p, es).Some? ensures Closed(Run(r, p, es).value.0) { InvRun(r, r, p, es); }
    } else if l :| l in m.layers && Sendable(r, p, l) && !Rests(l, r.blobs.Keys) {
      var es := NestedLayerOpens(r, src, inline, tag, m, l);
    } else if CanSend(r, p, m.layers) && Sendable(r, p, m.config) && !Rests(m.config, r.blobs.Keys + PlainDigests(m.layers)) {
      var es := NestedConfigOpens(r, src, inline, tag, m);
    } else {
      var es := WholeManifestOpens(r, src, inline, tag, m);
    }
  }

  // ---------------------------------------------------------------- the tag, exactly

  predicate Names(r: Repo, tag: string, m: Manifest) {
    tag in r.tags && r.tags[tag] == Sha256(Doc(m))
  }

  /** A blob's attempt never gets near a tag. */
  ghost predicate IsPart(t: Task<Pc>) {
    !t.desc.mediaType.ImageManifest? && (t.phase.Busy? ==> t.phase.at == Asking || t.phase.at == Sending)
  }

  /** The tag names nothing but the manifest, and the manifest once its task is won. */
  ghost predicate TagInv(r: Repo, p: Push) {
    && 2 <= |p.tasks| && Last(p).desc == Descriptor(ImageManifest, Sha256(Doc(p.manifest)))
    && (forall i :: 0 <= i < |p.tasks| - 1 ==> IsPart(p.tasks[i]))
    && (p.tag in r.tags ==> Names(r, p.tag, p.manifest))
    && (Last(p).phase == Won ==> Names(r, p.tag, p.manifest))
  }

  lemma TagTaskMove(r: Repo, p: Push, t: Task<Pc>, m: Move)
    requires TaskMove(r, p, t, m).Some?
    ensures var (r', t') := TaskMove(r, p, t, m).value;
            && (IsPart(t) ==> IsPart(t') && r'.tags == r.tags)
            && (t.desc == Descriptor(ImageManifest, Sha256(Doc(p.manifest))) && (p.tag in r.tags ==> Names(r, p.tag, p.manifest)) ==>
                  && t'.desc == t.desc
                  && (p.tag in r'.tags ==> Names(r', p.tag, p.manifest))
                  && (t'.phase == Won ==> Names(r', p.tag, p.manifest)))
  {
  }

  lemma {:induction false} TagInvStep(r: Repo, p: Push, e: Event)
    requires TagInv(r, p) && Step(r, p, e).Some?
    ensures TagInv(Step(r, p, e).value.0, Step(r, p, e).value.1)
    ensures Step(r, p, e).value.1.manifest == p.manifest && Step(r, p, e).value.1.tag == p.tag
  {
    if e.Move? && !e.m.Start? && !e.m.Abandon? { TagTaskMove(r, p, p.tasks[e.i], e.m); }
  }

  lemma {:induction false} TagInvRun(r: Repo, p: Push, es: seq<Event>)
    requires TagInv(r, p) && Run(r, p, es).Some?
    ensures var (r', p') := Run(r, p, es).value; TagInv(r', p') && p'.manifest == p.manifest && p'.tag == p.tag
    decreases |es|
  {
    if es != [] {
      var (r1, p1) := Step(r, p, es[0]).value;
      TagInvStep(r, p, es[0]);
      TagInvRun(r1, p1, es[1..]);
    }
  }

  /** Without manifests nothing is tagged. */
  lemma {:induction false} BlobsLeaveTags(r: Repo, p: Push, es: seq<Event>)
    requires 2 <= |p.tasks| && (forall i :: 0 <= i < |p.tasks| ==> IsPart(p.tasks[i])) && Run(r, p, es).Some?
    ensures Run(r, p, es).value.0.tags == r.tags
    decreases |es|
  {
    if es != [] {
      var e := es[0];
      if e.Move? && !e.m.Start? && !e.m.Abandon? { TagTaskMove(r, p, p.tasks[e.i], e.m); }
      BlobsLeaveTags(Step(r, p, e).value.0, Step(r, p, e).value.1, es[1..]);
    }
  }

  /** An attempt that finds the manifest, and some tag, on the remote. */
  lemma {:induction false} FindAndStop(r: Repo, p: Push, i: nat, t: Task<Pc>) returns (es: seq<Event>)
    requires 2 <= |p.tasks| && i < |p.tasks| && t.phase == Ready && t.desc.mediaType.ImageManifest? && Present(r, t.desc) && p.tag in r.tags
    ensures Run(r, With(p, i, t), es) == Some((r, With(p, i, Finish(Begin(t, Asking, false), false, None))))
  {
    var t2 := Begin(t, Asking, false);
    RunMove(r, p, i, t2.(phase := Busy(Resolving)), Resolved(true), []);
    es := [Move(i, Resolved(true))] + [];
    RunMove(r, p, i, t2, Asked, es);
    es := [Move(i, Asked)] + es;
    RunMove(r, p, i, t, Attempt, es);
    es := [Move(i, Attempt)] + es;
  }

  /** An attempt that sends the manifest and fails to tag it, before the moves `rest`. */
  lemma {:induction false} SendUntagged(r: Repo, p: Push, i: nat, t: Task<Pc>, body: Content, rest: seq<Event>) returns (es: seq<Event>)
    requires 2 <= |p.tasks| && i < |p.tasks| && t.phase == Ready && t.desc.mediaType.ImageManifest? && !Present(r, t.desc)
    requires Outgoing(p, t.desc) == Some(body)
    ensures Run(r, With(p, i, t), es)
         == Run(WithManifest(r, body), With(p, i, Finish(Begin(t, Asking, false), false, Some(Transient))), rest)
  {
    var t2 := Begin(t, Asking, false);
    RunMove(WithManifest(r, body), p, i, t2.(phase := Busy(Tagging)), TagFails(Transient), rest);
    es := [Move(i, TagFails(Transient))] + rest;
    RunMove(r, p, i, t2.(phase := Busy(Sending)), Sent, es);
    es := [Move(i, Sent)] + es;
    RunMove(r, p, i, t2, Asked, es);
    es := [Move(i, Asked)] + es;
    RunMove(r, p, i, t, Attempt, es);
    es := [Move(i, Attempt)] + es;
  }

  /** The manifest is sent, its `Tag` call fails, and the retry finds the manifest and some tag: success,
      with the tag where it was. */
  lemma {:induction false} SendAndMissTheTag(r: Repo, p: Push) returns (es: seq<Event>)
    requires 2 <= |p.tasks| && ReadyFor(p.tasks, |p.tasks| - 1) && Last(p).desc.mediaType.ImageManifest?
    requires p.tag in r.tags && (Present(r, Last(p).desc) || Outgoing(p, Last(p).desc).Some?)
    ensures Run(r, p, es).Some? && Run(r, p, es).value.0.tags == r.tags && Succeeded(Run(r, p, es).value.1)
  {
    var i := |p.tasks| - 1;
    var t := p.tasks[i].(phase := Ready);
    if Present(r, t.desc) {
      es := FindAndStop(r, p, i, t);
    } else {
      var body := Outgoing(p, t.desc).value;
      var rest := FindAndStop(WithManifest(r, body), p, i, Finish(Begin(t, Asking, false), false, Some(Transient)));
      es := SendUntagged(r, p, i, t, body, rest);
    }
    StartFirst(r, p, i, es);
    es := [Move(i, Start)] + es;
  }

  ghost predicate AlwaysNames(r: Repo, p: Push) {
    forall es :: Run(r, p, es).Some? && Succeeded(Run(r, p, es).value.1) ==> Names(Run(r, p, es).value.0, p.tag, p.manifest)
  }

  /** When the tag is safe: no part is a manifest, and the tag is free or on the manifest already; a manifest that says of
      itself that it is none is sent as a blob and never tagged, so then the tag must be on it already. */
  ghost predicate TagSafe(r: Repo, tag: string, m: Manifest) {
    PlainParts(m) && if m.mediaType.ImageManifest? then tag in r.tags ==> Names(r, tag, m) else Names(r, tag, m)
  }

  lemma SafeMeansNamed(r: Repo, src: Repo, inline: map<Digest, Content>, tag: string, m: Manifest, es: seq<Event>)
    requires TagSafe(r, tag, m) && Run(r, NewPush(src, inline, tag, m), es).Some? && Succeeded(Run(r, NewPush(src, inline, tag, m), es).value.1)
    ensures Names(Run(r, NewPush(src, inline, tag, m), es).value.0, tag, m)
  {
    var p := NewPush(src, inline, tag, m);
    NewPushReady(src, inline, tag, m);
    LayersAreParts(m);
    forall i | 0 <= i < |p.tasks| - 1 ensures IsPart(p.tasks[i]) { assert p.tasks[i].desc in Parts(m); }
    if m.mediaType.ImageManifest? { TagInvRun(r, p, es); } else { BlobsLeaveTags(r, p, es); }
  }

  /** A successful run that leaves the tag elsewhere. */
  lemma TagMissed(r: Repo, src: Repo, inline: map<Digest, Content>, tag: string, m: Manifest) returns (es: seq<Event>)
    requires AllSendable(r, NewPush(src, inline, tag, m)) && !TagSafe(r, tag, m)
    ensures Run(r, NewPush(src, inline, tag, m), es).Some? && Succeeded(Run(r, NewPush(src, inline, tag, m), es).value.1)
    ensures !Names(Run(r, NewPush(src, inline, tag, m), es).value.0, tag, m)
  {
    var p, n := NewPush(src, inline, tag, m), |m.layers|;
    var r1, p1;
    es, r1, p1 := CopyParts(r, src, inline, tag, m);
    forall d | d in Parts(m) ensures d.digest != Sha256(Doc(m)) { NotItself(m, d); }
    assert PlainParts(m) <==> NestedDigests(Parts(m)) == {} by {
      if d :| d in Parts(m) && d.mediaType.ImageManifest? { assert d.digest in NestedDigests(Parts(m)); }
    }
    assert !Names(r1, tag, m);
    assert Sendable(r1, p1, ManifestDesc(m)) by { assert Outgoing(p1, ManifestDesc(m)) == Outgoing(p, ManifestDesc(m)); }
    var more;
    if m.mediaType.ImageManifest? { more := SendAndMissTheTag(r1, p1); } else { more := CopyTask(r1, p1, n + 1); }
    RunAppend(r, p, es, more);
    es := es + more;
  }

  /** Every push that returns without an error leaves the tag naming the pushed manifest, in every interleaving and retry
      pattern, if and only if, as far as everything can be sent at all, the tag is safe. */
  lemma PushNamesExactly(r: Repo, src: Repo, inline: map<Digest, Content>, tag: string, m: Manifest)
    requires Addressed(r)
    ensures AlwaysNames(r, NewPush(src, inline, tag, m)) <==> (AllSendable(r, NewPush(src, inline, tag, m)) ==> TagSafe(r, tag, m))
  {
    var p := NewPush(src, inline, tag, m);
    forall es | Run(r, p, es).Some? && Succeeded(Run(r, p, es).value.1)
      ensures AllSendable(r, p) && (TagSafe(r, tag, m) ==> Names(Run(r, p, es).value.0, tag, m))
    {
      PushStoresEverything(r, src, inline, tag, m, es);
      if TagSafe(r, tag, m) { SafeMeansNamed(r, src, inline, tag, m, es); }
    }
    if AllSendable(r, p) && !TagSafe(r, tag, m) {
      var es := TagMissed(r, src, inline, tag, m);
    }
  }
}
