/** The tasks that `Pull` and `Push` share. */
module Scheduling {
  import opened Options
  import opened Oci

  // One task for each layer, then one for the config, then one for the manifest; each task runs its body under
  // `retry.Do` with `defaultRetryOpts`.

  const ATTEMPTS: nat := 6

  /** An authentication failure is not retried, anything else is. */
  datatype Failure = Unauthorized | Transient

  datatype Hook = Before(skip: bool) | After(skipped: bool, err: Option<Failure>)

  /** `Waiting`: not started. `Ready`: inside the retry loop, between attempts. `Busy`: inside an attempt. */
  datatype Phase<P> = Waiting | Ready | Busy(at: P) | Won | Lost

  datatype Task<P> = Task(desc: Descriptor, hooked: bool, phase: Phase<P>, attempts: nat, trace: seq<Hook>)

  function Fresh<P>(desc: Descriptor, hooked: bool): Task<P> {
    Task(desc, hooked, Waiting, 0, [])
  }

  function Begin<P>(t: Task<P>, at: P, skip: bool): Task<P> {
    t.(phase := Busy(at), attempts := t.attempts + 1, trace := if t.hooked then t.trace + [Before(skip)] else t.trace)
  }

  function Finish<P>(t: Task<P>, skipped: bool, err: Option<Failure>): Task<P> {
    t.(phase := if err.None? then Won else if err.value.Transient? && t.attempts < ATTEMPTS then Ready else Lost,
       trace := if t.hooked then t.trace + [After(skipped, err)] else t.trace)
  }

  /** What one copy has to do: layers, config, manifest. */
  function Tasks<P>(layers: seq<Descriptor>, config: Descriptor, manifest: Descriptor, hooked: bool): (ts: seq<Task<P>>)
    ensures |ts| == |layers| + 2
    ensures forall i :: 0 <= i < |layers| ==> ts[i] == Fresh(layers[i], hooked)
    ensures ts[|layers|] == Fresh(config, false) && ts[|layers| + 1] == Fresh(manifest, false)
  {
    seq(|layers|, i requires 0 <= i < |layers| => Fresh(layers[i], hooked)) + [Fresh(config, false), Fresh(manifest, false)]
  }

  /** Layers may start at once, the config after every layer has succeeded, the manifest after the config. */
  predicate Gate<P(==)>(ts: seq<Task<P>>, i: nat)
    requires i < |ts| && 2 <= |ts|
  {
    if i < |ts| - 2 then true
    else if i == |ts| - 2 then forall k :: 0 <= k < |ts| - 2 ==> ts[k].phase == Won
    else ts[|ts| - 2].phase == Won
  }

  /** A layer's context is cancelled by the caller or by a layer that failed; the other two only by the caller. */
  predicate Cancelled<P(==)>(ts: seq<Task<P>>, i: nat, byCaller: bool)
    requires 2 <= |ts|
  {
    byCaller || (i < |ts| - 2 && exists k :: 0 <= k < |ts| - 2 && ts[k].phase == Lost)
  }

  /** The order "layers, config, manifest" seen from any later moment. */
  ghost predicate Ordered<P(!new)>(ts: seq<Task<P>>) {
    && 2 <= |ts|
    && (ts[|ts| - 2].phase != Waiting ==> forall k :: 0 <= k < |ts| - 2 ==> ts[k].phase == Won)
    && (ts[|ts| - 1].phase != Waiting ==> ts[|ts| - 2].phase == Won)
  }

  /** A task that is not over moves on, and a task that has not started starts only through its gate:
      the order is kept. */
  lemma OrderKept<P(!new)>(ts: seq<Task<P>>, i: nat, t: Task<P>)
    requires Ordered(ts) && i < |ts|
    requires ts[i].phase != Won && t.phase != Waiting
    requires ts[i].phase == Waiting ==> Gate(ts, i)
    ensures Ordered(ts[i := t])
  {
    var ts' := ts[i := t];
    assert forall k :: 0 <= k < |ts| && k != i ==> ts'[k] == ts[k];
  }

  // ---------------------------------------------------------------- the end

  /** A layer was lost and none is at work, or the config was lost, or the manifest's turn is over. */
  predicate Settled<P(==)>(ts: seq<Task<P>>) {
    2 <= |ts| &&
    var n := |ts| - 2;
    || ((forall i :: 0 <= i < n ==> ts[i].phase == Won || ts[i].phase == Lost) && exists i :: 0 <= i < n && ts[i].phase == Lost)
    || ts[n].phase == Lost
    || ts[n + 1].phase == Won || ts[n + 1].phase == Lost
  }

  ghost predicate AnyLost<P(!new)>(ts: seq<Task<P>>) {
    exists i :: 0 <= i < |ts| && ts[i].phase == Lost
  }

  /** Once it is settled, either the manifest is won and nothing is lost, or something is. */
  lemma EndsOneWay<P(!new)>(ts: seq<Task<P>>)
    requires Ordered(ts) && Settled(ts)
    ensures ts[|ts| - 1].phase == Won <==> !AnyLost(ts)
  {
    var n := |ts| - 2;
    if ts[n + 1].phase == Won {
      assert ts[n].phase == Won;
      assert forall k :: 0 <= k < n ==> ts[k].phase == Won;
    }
  }

  /** Failures so far of a task that is not over. */
  function FailedSoFar<P>(t: Task<P>): int {
    if t.phase.Busy? then t.attempts - 1 else t.attempts
  }

  predicate Regular<P>(t: Task<P>) {
    && (t.phase.Waiting? ==> t.attempts == 0)
    && (t.phase.Ready? ==> t.attempts < 6)
    && (t.phase.Busy? ==> 1 <= t.attempts <= 6)
  }

  predicate Over<P>(t: Task<P>) {
    t.phase.Won? || t.phase.Lost?
  }

  /** Another layer than `i` is lost. */
  predicate OtherLost<P(==)>(ts: seq<Task<P>>, i: nat) {
    exists j :: 0 <= j < |ts| - 2 && j != i && ts[j].phase == Lost
  }

  // ---------------------------------------------------------------- copying in order

  ghost predicate Unstarted<P(!new)>(t: Task<P>) {
    t.phase == Waiting && t.attempts == 0
  }

  /** All before task `i` are won, all from `i` on have not started. */
  ghost predicate ReadyFor<P(!new)>(ts: seq<Task<P>>, i: nat) {
    && 2 <= |ts| && i < |ts|
    && (forall k :: 0 <= k < i ==> ts[k].phase == Won)
    && (forall k :: i <= k < |ts| ==> Unstarted(ts[k]))
  }

  ghost predicate Describes<P(!new)>(ts: seq<Task<P>>, ds: seq<Descriptor>) {
    |ts| == |ds| && forall k :: 0 <= k < |ds| ==> ts[k].desc == ds[k]
  }
}
