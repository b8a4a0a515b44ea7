/** One pull on its own: success, a second pull, hook calls, the end. */
module PullRuns {
  import opened Options
  import opened Oci
  import opened Store
  import opened Scheduling
  import opened Transfer

  function PullRun(r: Repo, p: Pull, es: seq<PullEvent>): Option<(Repo, Pull)>
    decreases |es|
  {
    if es == [] then Some((r, p))
    else
      match PullStep(r, p, es[0])
      case None => None
      case Some((r1, p1)) => PullRun(r1, p1, es[1..])
  }

  /** A remote with one answer for each descriptor, right or wrong, and the layers a hook may skip even when they are
      not there. */
  datatype Setting = Setting(answer: Descriptor -> Content, skips: Descriptor -> bool)

  /** Who keeps their promises in a run; or, promises aside, what the others do. */
  datatype Trust = Trust(remote: bool, hooks: bool) | Any(s: Setting)

  const BOTH := Trust(true, true)

  ghost predicate Answered(p: Pull, e: PullEvent, s: Setting) {
    e.Move? && e.i < |p.tasks| && e.m.Fetched? ==> e.m.body == s.answer(p.tasks[e.i].desc)
  }

  ghost predicate Trusted(r: Repo, p: Pull, e: PullEvent, trust: Trust) {
    match trust
    case Trust(remote, hooks) => (remote ==> HonestFetch(p, e)) && (hooks ==> HonestSkip(r, p, e))
    case Any(s) => Answered(p, e, s) && (HonestSkip(r, p, e) || s.skips(p.tasks[e.i].desc))
  }

  ghost predicate TrustedRun(r: Repo, p: Pull, es: seq<PullEvent>, trust: Trust)
    decreases |es|
  {
    es != [] ==>
      && Trusted(r, p, es[0], trust)
      && (PullStep(r, p, es[0]).Some? ==>
            TrustedRun(PullStep(r, p, es[0]).value.0, PullStep(r, p, es[0]).value.1, es[1..], trust))
  }

  ghost predicate HonestPullRun(r: Repo, p: Pull, es: seq<PullEvent>) {
    TrustedRun(r, p, es, BOTH)
  }

  lemma {:induction false} PullRunAppend(r: Repo, p: Pull, es: seq<PullEvent>, fs: seq<PullEvent>, trust: Trust)
    requires PullRun(r, p, es).Some?
    ensures PullRun(r, p, es + fs) == PullRun(PullRun(r, p, es).value.0, PullRun(r, p, es).value.1, fs)
    ensures TrustedRun(r, p, es, trust) && TrustedRun(PullRun(r, p, es).value.0, PullRun(r, p, es).value.1, fs, trust) ==>
              TrustedRun(r, p, es + fs, trust)
    decreases |es|
  {
    if es == [] {
      assert es + fs == fs;
    } else {
      assert (es + fs)[1..] == es[1..] + fs;
      var (r1, p1) := PullStep(r, p, es[0]).value;
      PullRunAppend(r1, p1, es[1..], fs, trust);
    }
  }

  function Last(p: Pull): Task<Pc>
    requires 0 < |p.tasks|
  {
    p.tasks[|p.tasks| - 1]
  }

  // ---------------------------------------------------------------- success

  /** What is won or skipped is there, and what is being checked was stored under the digest of its bytes. */
  ghost predicate Arrived(r: Repo, t: Task<Pc>) {
    && (t.phase == Won || t.phase == Busy(Skipping) ==> Present(r, t.desc))
    && (t.phase.Busy? && t.phase.at.Validating? ==> Present(r, Descriptor(t.desc.mediaType, Sha256(t.phase.at.body))))
  }

  ghost predicate AllArrived(r: Repo, p: Pull) {
    && Addressed(r) && Shape(p) && Ordered(p.tasks)
    && forall i :: 0 <= i < |p.tasks| ==> Arrived(r, p.tasks[i])
  }

  ghost predicate Keeps(r: Repo, r': Repo) {
    r.blobs.Keys <= r'.blobs.Keys && r.manifests.Keys <= r'.manifests.Keys
  }

  lemma ArrivedMove(r: Repo, tag: string, t: Task<Pc>, m: Move)
    requires Addressed(r) && Arrived(r, t) && TaskMove(r, tag, t, m).Some? && (m.Attempt? && m.skip ==> Present(r, t.desc))
    ensures var (r', t') := TaskMove(r, tag, t, m).value;
            Addressed(r') && Keeps(r, r') && Arrived(r', t') && t'.desc == t.desc && t'.hooked == t.hooked && t'.phase != Waiting
  {
  }

  lemma ArrivedKept(r: Repo, p: Pull, i: nat, t: Task<Pc>, r': Repo)
    requires AllArrived(r, p) && i < |p.tasks| && Addressed(r') && Keeps(r, r') && Arrived(r', t)
    requires t.desc == p.tasks[i].desc && t.hooked == p.tasks[i].hooked && Ordered(p.tasks[i := t])
    ensures AllArrived(r', p.(tasks := p.tasks[i := t]))
  {
    var tasks := p.tasks[i := t];
    forall k | 0 <= k < |tasks| ensures Arrived(r', tasks[k]) { assert Arrived(r, p.tasks[k]); }
  }

  lemma ArrivedStep(r: Repo, p: Pull, e: PullEvent)
    requires AllArrived(r, p) && HonestSkip(r, p, e) && PullStep(r, p, e).Some?
    ensures var (r1, p1) := PullStep(r, p, e).value;
            AllArrived(r1, p1) && Keeps(r, r1) && p1.manifest == p.manifest && p1.tag == p.tag && Last(p1).desc == Last(p).desc
  {
    if e.Move? {
      var t, t' := p.tasks[e.i], PullStep(r, p, e).value.1.tasks[e.i];
      if !e.m.Start? && !e.m.Abandon? { ArrivedMove(r, p.tag, t, e.m); }
      OrderKept(p.tasks, e.i, t');
      ArrivedKept(r, p, e.i, t', PullStep(r, p, e).value.0);
    }
  }

  lemma {:induction false} ArrivedRun(r: Repo, p: Pull, es: seq<PullEvent>, trust: Trust)
    requires AllArrived(r, p) && trust.Trust? && trust.hooks && TrustedRun(r, p, es, trust) && PullRun(r, p, es).Some?
    ensures var (r', p') := PullRun(r, p, es).value;
            AllArrived(r', p') && Keeps(r, r') && p'.manifest == p.manifest && Last(p').desc == Last(p).desc
    decreases |es|
  {
    if es != [] {
      ArrivedStep(r, p, es[0]);
      ArrivedRun(PullStep(r, p, es[0]).value.0, PullStep(r, p, es[0]).value.1, es[1..], trust);
    }
  }

  lemma NewPullArrived(r: Repo, repo: string, tag: string, desc: Descriptor, m: Manifest)
    requires Addressed(r)
    ensures AllArrived(r, NewPull(repo, tag, desc, m))
  {
    var p, n := NewPull(repo, tag, desc, m), |m.layers|;
    assert forall i :: 0 <= i < n ==> p.tasks[i] == Fresh(m.layers[i], true);
    assert p.tasks[n] == Fresh(m.config, false) && p.tasks[n + 1] == Fresh(desc, false);
  }

  /** Everything the manifest names, and the manifest. */
  ghost predicate Complete(r: Repo, m: Manifest, desc: Descriptor) {
    (forall d :: d in Parts(m) ==> Present(r, d)) && Present(r, desc)
  }

  lemma AllWonComplete(r: Repo, p: Pull)
    requires AllArrived(r, p) && Succeeded(p)
    ensures Complete(r, p.manifest, Last(p).desc)
  {
    var m, n := p.manifest, |p.manifest.layers|;
    LayersAreParts(m);
    assert Arrived(r, p.tasks[n]) && Arrived(r, p.tasks[n + 1]);
    forall l | l in m.layers ensures Present(r, l) {
      var i :| 0 <= i < n && m.layers[i] == l;
      assert Arrived(r, p.tasks[i]);
    }
  }

  /** A pull that returns without an error has left every layer, the config and the manifest behind, each where its
      media type is looked up, and everything in the repository hashes to its digest. */
  lemma PullStoresEverything(r: Repo, repo: string, tag: string, desc: Descriptor, m: Manifest, es: seq<PullEvent>, trust: Trust)
    requires Addressed(r) && trust.Trust? && trust.hooks && TrustedRun(r, NewPull(repo, tag, desc, m), es, trust)
    requires PullRun(r, NewPull(repo, tag, desc, m), es).Some?
    ensures var (r', p') := PullRun(r, NewPull(repo, tag, desc, m), es).value;
            Addressed(r') && Keeps(r, r') && (Succeeded(p') ==> Complete(r', m, desc))
  {
    NewPullArrived(r, repo, tag, desc, m);
    ArrivedRun(r, NewPull(repo, tag, desc, m), es, trust);
    var (r', p') := PullRun(r, NewPull(repo, tag, desc, m), es).value;
    if Succeeded(p') { AllWonComplete(r', p'); }
  }

  /** When everything is there already, no run of the same pull changes anything, whatever the remote
      serves, the hooks decide and the network does. */
  lemma {:induction false} PullAgainChangesNothing(r: Repo, p: Pull, es: seq<PullEvent>)
    requires |p.tasks| >= 2 && PullRun(r, p, es).Some?
    requires forall i :: 0 <= i < |p.tasks| ==> Present(r, p.tasks[i].desc) && Unwritten(p.tasks[i])
    ensures PullRun(r, p, es).value.0 == r
    decreases |es|
  {
    if es != [] { PullAgainChangesNothing(r, PullStep(r, p, es[0]).value.1, es[1..]); }
  }

  ghost predicate Unwritten(t: Task<Pc>) {
    t.phase.Busy? ==> !t.phase.at.Storing? && !t.phase.at.Validating?
  }

  /** A successful pull, then any run of the same pull. */
  lemma SecondPullChangesNothing(r: Repo, repo: string, tag: string, desc: Descriptor, m: Manifest, es: seq<PullEvent>, trust: Trust, again: seq<PullEvent>)
    requires Addressed(r) && trust.Trust? && trust.hooks && TrustedRun(r, NewPull(repo, tag, desc, m), es, trust)
    requires PullRun(r, NewPull(repo, tag, desc, m), es).Some? && Succeeded(PullRun(r, NewPull(repo, tag, desc, m), es).value.1)
    requires PullRun(PullRun(r, NewPull(repo, tag, desc, m), es).value.0, NewPull(repo, tag, desc, m), again).Some?
    ensures var r1 := PullRun(r, NewPull(repo, tag, desc, m), es).value.0;
            PullRun(r1, NewPull(repo, tag, desc, m), again).value.0 == r1
  {
    var p, n := NewPull(repo, tag, desc, m), |m.layers|;
    var r1 := PullRun(r, p, es).value.0;
    PullStoresEverything(r, repo, tag, desc, m, es, trust);
    LayersAreParts(m);
    forall i | 0 <= i < n + 2 ensures Present(r1, p.tasks[i].desc) && Unwritten(p.tasks[i]) {
      if i < n { assert p.tasks[i] == Fresh(m.layers[i], true); }
    }
    PullAgainChangesNothing(r1, p, again);
  }

  // ---------------------------------------------------------------- hooks

  /** The hook calls of one layer, at any moment. */
  ghost predicate TraceOk(t: Task<Pc>) {
    var tr := t.trace;
    && t.attempts <= 6
    && |tr| == 2 * t.attempts - (if t.phase.Busy? then 1 else 0)
    && (forall k :: 0 <= k < |tr| && k % 2 == 0 ==> tr[k].Before?)
    && (forall k :: 0 <= k < |tr| && k % 2 == 1 ==> tr[k].After? && tr[k].skipped == tr[k - 1].skip)
    && (forall k :: 0 <= k < |tr| - 1 && k % 2 == 1 ==> tr[k].err == Some(Transient))
    && (t.phase == Waiting ==> tr == [])
    && (t.phase == Ready ==> t.attempts < 6 && (tr != [] ==> tr[|tr| - 1].After? && tr[|tr| - 1].err == Some(Transient)))
    && (t.phase.Busy? ==> tr != [] && tr[|tr| - 1] == Before(t.phase.at.Skipping?))
    && (t.phase == Won <==> tr != [] && tr[|tr| - 1].After? && tr[|tr| - 1].err == None)
  }

  lemma BeginTrace(t: Task<Pc>, skip: bool)
    requires t.hooked && TraceOk(t) && t.phase == Ready
    ensures TraceOk(Begin(t, if skip then Skipping else Fetching, skip))
  {
  }

  lemma FinishTrace(t: Task<Pc>, skipped: bool, err: Option<Failure>)
    requires t.hooked && TraceOk(t) && t.phase.Busy? && t.phase.at.Skipping? == skipped && (skipped ==> err == None)
    ensures TraceOk(Finish(t, skipped, err))
  {
    assert (|t.trace| - 1) % 2 == 0;
  }

  lemma {:induction false} TaskMoveTrace(r: Repo, tag: string, t: Task<Pc>, m: Move)
    requires t.hooked && TraceOk(t) && TaskMove(r, tag, t, m).Some?
    ensures TaskMove(r, tag, t, m).value.1.hooked && TraceOk(TaskMove(r, tag, t, m).value.1)
  {
    var t' := TaskMove(r, tag, t, m).value.1;
    if t.phase == Ready { BeginTrace(t, m.skip); }
    else if !t'.phase.Busy? {
      FinishTrace(t, t.phase.at.Skipping?,
                  match m
                  case FetchFails(e) => Some(e)
                  case CheckFails(e) => Some(e)
                  case StoreFails(e, _) => Some(e)
                  case Validated => if ValidateDigest(t.desc.digest, t.phase.at.body) then None else Some(Transient)
                  case _ => None);
    }
  }

  ghost predicate TracesOk(p: Pull) {
    2 <= |p.tasks| && forall i :: 0 <= i < |p.tasks| - 2 ==> p.tasks[i].hooked && TraceOk(p.tasks[i])
  }

  lemma {:induction false} HookTracesStep(r: Repo, p: Pull, e: PullEvent)
    requires TracesOk(p) && PullStep(r, p, e).Some?
    ensures TracesOk(PullStep(r, p, e).value.1)
  {
    if e.Move? && e.i < |p.tasks| - 2 {
      assert TraceOk(p.tasks[e.i]);
      if !e.m.Start? && !e.m.Abandon? { TaskMoveTrace(r, p.tag, p.tasks[e.i], e.m); }
    }
  }

  /** In every run, for every layer: at most six Before/After pairs, strictly alternating, After repeating
      what Before decided, every pair but the last with a retryable error, and the layer succeeds if and
      only if its last call is an After without an error. */
  lemma {:induction false} HookTraces(r: Repo, p: Pull, es: seq<PullEvent>)
    requires TracesOk(p) && PullRun(r, p, es).Some?
    ensures TracesOk(PullRun(r, p, es).value.1)
    decreases |es|
  {
    if es != [] {
      var (r1, p1) := PullStep(r, p, es[0]).value;
      HookTracesStep(r, p, es[0]);
      HookTraces(r1, p1, es[1..]);
    }
  }

  lemma NewPullTraces(repo: string, tag: string, desc: Descriptor, m: Manifest)
    ensures TracesOk(NewPull(repo, tag, desc, m))
  {
    assert forall i :: 0 <= i < |m.layers| ==> NewPull(repo, tag, desc, m).tasks[i] == Fresh(m.layers[i], true);
  }

  // ---------------------------------------------------------------- termination

  ghost predicate RetryOk(t: Task<Pc>) {
    t.attempts <= ATTEMPTS && (t.phase == Ready ==> t.attempts < ATTEMPTS) && (t.phase == Waiting ==> t.attempts == 0)
  }

  /** How many moves a task has left at most. */
  function Weight(t: Task<Pc>): nat {
    var left := if t.attempts <= ATTEMPTS then 5 * (ATTEMPTS - t.attempts) else 0;
    match t.phase
    case Waiting => left + 2
    case Ready => left + 1
    case Busy(Fetching) => left + 5
    case Busy(Checking(_)) => left + 4
    case Busy(Storing(_)) => left + 3
    case Busy(_) => left + 2
    case Won | Lost => 0
  }

  function Weights(ts: seq<Task<Pc>>): nat {
    if ts == [] then 0 else Weight(ts[0]) + Weights(ts[1..])
  }

  function Fuel(p: Pull): nat {
    Weights(p.tasks) + if p.cancelled then 0 else 1
  }

  lemma {:induction false} WeightsUpdate(ts: seq<Task<Pc>>, i: nat, t: Task<Pc>)
    requires i < |ts|
    ensures Weights(ts[i := t]) == Weights(ts) - Weight(ts[i]) + Weight(t)
  {
    if i > 0 {
      assert ts[i := t][1..] == ts[1..][i - 1 := t];
      WeightsUpdate(ts[1..], i - 1, t);
    } else {
      assert ts[i := t][1..] == ts[1..];
    }
  }

  lemma WeightDrops(r: Repo, tag: string, t: Task<Pc>, m: Move)
    requires RetryOk(t) && TaskMove(r, tag, t, m).Some?
    ensures RetryOk(TaskMove(r, tag, t, m).value.1) && Weight(TaskMove(r, tag, t, m).value.1) < Weight(t)
  {
  }

  lemma FuelDrops(r: Repo, p: Pull, e: PullEvent)
    requires (forall i :: 0 <= i < |p.tasks| ==> RetryOk(p.tasks[i])) && PullStep(r, p, e).Some?
    ensures var p1 := PullStep(r, p, e).value.1;
            (forall i :: 0 <= i < |p1.tasks| ==> RetryOk(p1.tasks[i])) && Fuel(p1) < Fuel(p)
  {
    if e.Move? {
      var t, p1 := p.tasks[e.i], PullStep(r, p, e).value.1;
      if !e.m.Start? && !e.m.Abandon? { WeightDrops(r, p.tag, t, e.m); }
      WeightsUpdate(p.tasks, e.i, p1.tasks[e.i]);
    }
  }

  /** Every run ends: no run is longer than the fuel of its start. */
  lemma {:induction false} RunsEnd(r: Repo, p: Pull, es: seq<PullEvent>)
    requires (forall i :: 0 <= i < |p.tasks| ==> RetryOk(p.tasks[i])) && PullRun(r, p, es).Some?
    ensures |es| + Fuel(PullRun(r, p, es).value.1) <= Fuel(p)
    decreases |es|
  {
    if es != [] {
      var (r1, p1) := PullStep(r, p, es[0]).value;
      FuelDrops(r, p, es[0]);
      RunsEnd(r1, p1, es[1..]);
    }
  }

  lemma {:induction false} FreshWeights(ts: seq<Task<Pc>>)
    requires forall i :: 0 <= i < |ts| ==> ts[i].phase == Waiting && ts[i].attempts == 0
    ensures Weights(ts) == 32 * |ts|
  {
    if ts != [] { FreshWeights(ts[1..]); }
  }

  /** A pull of n layers makes at most 32 * (n + 2) + 1 moves, whatever fails and whoever cancels. */
  lemma PullEnds(r: Repo, repo: string, tag: string, desc: Descriptor, m: Manifest, es: seq<PullEvent>)
    requires PullRun(r, NewPull(repo, tag, desc, m), es).Some?
    ensures |es| <= 32 * (|m.layers| + 2) + 1
  {
    var p := NewPull(repo, tag, desc, m);
    assert forall i :: 0 <= i < |p.tasks| ==> p.tasks[i].phase == Waiting && p.tasks[i].attempts == 0;
    FreshWeights(p.tasks);
    RunsEnd(r, p, es);
  }

  // ---------------------------------------------------------------- no run gets stuck

  /** `Pull` has returned. */
  predicate Returned(p: Pull) {
    Settled(p.tasks)
  }

  /** A task inside its retries always has a move. */
  lemma TaskMoves(r: Repo, tag: string, t: Task<Pc>) returns (m: Move)
    requires t.phase == Ready || t.phase.Busy?
    ensures !m.Start? && !m.Abandon? && TaskMove(r, tag, t, m).Some?
  {
    match t.phase
    case Ready => m := Attempt(false);
    case Busy(Skipping) => m := SkipDone;
    case Busy(Fetching) => m := FetchFails(Transient);
    case Busy(Checking(_)) => m := Checked;
    case Busy(Storing(_)) => m := StoreFails(Transient, false);
    case Busy(Validating(_)) => m := Validated;
  }

  lemma TaskCanMove(r: Repo, p: Pull, i: nat)
    requires 2 <= |p.tasks| && i < |p.tasks| && Gate(p.tasks, i) && p.tasks[i].phase != Won && p.tasks[i].phase != Lost
    ensures exists m :: PullStep(r, p, Move(i, m)).Some?
  {
    if p.tasks[i].phase == Waiting {
      assert PullStep(r, p, Move(i, Start)).Some?;
    } else {
      var m := TaskMoves(r, p.tag, p.tasks[i]);
      assert PullStep(r, p, Move(i, m)).Some?;
    }
  }

  /** Until the pull has returned, some task of it has a move, whatever the caller does. */
  lemma PullMoves(r: Repo, p: Pull)
    requires 2 <= |p.tasks| && !Returned(p)
    ensures exists i, m :: PullStep(r, p, Move(i, m)).Some?
  {
    var n := |p.tasks| - 2;
    var i := n;
    if k :| 0 <= k < n && p.tasks[k].phase != Won && p.tasks[k].phase != Lost {
      i := k;
    } else if p.tasks[n].phase == Won {
      i := n + 1;
    }
    TaskCanMove(r, p, i);
  }
}
