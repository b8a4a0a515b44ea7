/** When a pull gives a copy up, told by the events. */
module PullRetries {
  import opened Options
  import opened Oci
  import opened Store
  import opened Scheduling
  import opened Transfer
  import opened PullRuns

  /** The failure a move is: an error of the remote or the store, or bytes that do not have the digest asked for. */
  function FailureOf(t: Task<Pc>, m: Move): Option<Failure> {
    match m
    case FetchFails(e) => Some(e)
    case CheckFails(e) => Some(e)
    case StoreFails(e, _) => Some(e)
    case Validated =>
      if t.phase.Busy? && t.phase.at.Validating? && t.desc.digest != Sha256(t.phase.at.body) then Some(Transient) else None
    case _ => None
  }

  /** The next event is a failing move of task `i`. */
  predicate FailsNow(p: Pull, e: PullEvent, i: nat) {
    e.Move? && e.i == i < |p.tasks| && FailureOf(p.tasks[i], e.m).Some?
  }

  /** How many moves of task `i` fail in a run. */
  function Failures(r: Repo, p: Pull, es: seq<PullEvent>, i: nat): nat
    decreases |es|
  {
    if es == [] then 0
    else
      (if FailsNow(p, es[0], i) then 1 else 0)
      + match PullStep(r, p, es[0])
        case None => 0
        case Some((r1, p1)) => Failures(r1, p1, es[1..], i)
  }

  /** One of them is refused by the registry for want of authorisation. */
  predicate Denied(r: Repo, p: Pull, es: seq<PullEvent>, i: nat)
    decreases |es|
  {
    es != [] &&
    ( || (FailsNow(p, es[0], i) && FailureOf(p.tasks[i], es[0].m) == Some(Unauthorized))
      || match PullStep(r, p, es[0])
         case None => false
         case Some((r1, p1)) => Denied(r1, p1, es[1..], i))
  }

  /** Task `i` is given up between attempts, after the caller has cancelled (`called`: even before this run) or, if it is a
      layer, after another one was lost. */
  predicate GivenUp(r: Repo, p: Pull, es: seq<PullEvent>, i: nat, called: bool)
    decreases |es|
  {
    es != [] &&
    ( || (es[0] == Move(i, Abandon) && (called || (i < |p.tasks| - 2 && OtherLost(p.tasks, i))))
      || match PullStep(r, p, es[0])
         case None => false
         case Some((r1, p1)) => GivenUp(r1, p1, es[1..], i, called || es[0].Cancel?))
  }

  lemma MoveCounts(r: Repo, tag: string, t: Task<Pc>, m: Move)
    requires Regular(t) && TaskMove(r, tag, t, m).Some?
    ensures var t', f := TaskMove(r, tag, t, m).value.1, FailureOf(t, m);
            && Regular(t') && (f.Some? ==> FailedSoFar(t) < 6)
            && (t'.phase == Lost <==> f == Some(Unauthorized) || (f.Some? && FailedSoFar(t) == 5))
            && (!Over(t') ==> FailedSoFar(t') == FailedSoFar(t) + if f.Some? then 1 else 0)
            && (t'.phase == Won ==> f.None?)
  {
  }

  /** One event, for a task that is not over. */
  lemma StepCounts(r: Repo, p: Pull, e: PullEvent, i: nat)
    requires i < |p.tasks| && !Over(p.tasks[i]) && Regular(p.tasks[i]) && PullStep(r, p, e).Some?
    ensures var t, p1, f := p.tasks[i], PullStep(r, p, e).value.1, FailsNow(p, e, i);
            && |p1.tasks| == |p.tasks| && p1.cancelled == (p.cancelled || e.Cancel?)
            && Regular(p1.tasks[i]) && (f ==> FailedSoFar(t) < 6) && (p1.tasks[i].phase == Won ==> !f)
            && (p1.tasks[i].phase == Lost <==>
                || (f && (FailureOf(p.tasks[i], e.m) == Some(Unauthorized) || FailedSoFar(t) == 5))
                || (e == Move(i, Abandon) && (p.cancelled || (i < |p.tasks| - 2 && OtherLost(p.tasks, i)))))
            && (!Over(p1.tasks[i]) ==> FailedSoFar(p1.tasks[i]) == FailedSoFar(t) + if f then 1 else 0)
  {
    if e.Move? && e.i == i && !e.m.Start? && !e.m.Abandon? { MoveCounts(r, p.tag, p.tasks[i], e.m); }
  }

  lemma StepKeepsOver(r: Repo, p: Pull, e: PullEvent, i: nat)
    requires i < |p.tasks| && Over(p.tasks[i]) && PullStep(r, p, e).Some?
    ensures i < |PullStep(r, p, e).value.1.tasks| && PullStep(r, p, e).value.1.tasks[i] == p.tasks[i]
    ensures !FailsNow(p, e, i) && e != Move(i, Abandon)
  {
  }

  lemma {:induction false} OverStays(r: Repo, p: Pull, es: seq<PullEvent>, i: nat, called: bool)
    requires i < |p.tasks| && Over(p.tasks[i]) && PullRun(r, p, es).Some?
    ensures Failures(r, p, es, i) == 0 && !Denied(r, p, es, i) && !GivenUp(r, p, es, i, called)
    ensures i < |PullRun(r, p, es).value.1.tasks| && PullRun(r, p, es).value.1.tasks[i] == p.tasks[i]
    decreases |es|
  {
    if es != [] {
      var (r1, p1) := PullStep(r, p, es[0]).value;
      StepKeepsOver(r, p, es[0], i);
      OverStays(r1, p1, es[1..], i, called || es[0].Cancel?);
    }
  }

  /** A task that is not over at the start of a run. */
  lemma {:induction false} LostTells(r: Repo, p: Pull, es: seq<PullEvent>, i: nat)
    requires i < |p.tasks| && !Over(p.tasks[i]) && Regular(p.tasks[i]) && PullRun(r, p, es).Some?
    ensures i < |PullRun(r, p, es).value.1.tasks|
    ensures FailedSoFar(p.tasks[i]) + Failures(r, p, es, i) <= 6
    ensures PullRun(r, p, es).value.1.tasks[i].phase == Lost <==>
            Denied(r, p, es, i) || FailedSoFar(p.tasks[i]) + Failures(r, p, es, i) == 6 || GivenUp(r, p, es, i, p.cancelled)
    decreases |es|
  {
    if es != [] {
      var (r1, p1) := PullStep(r, p, es[0]).value;
      StepCounts(r, p, es[0], i);
      if Over(p1.tasks[i]) { OverStays(r1, p1, es[1..], i, p1.cancelled); } else { LostTells(r1, p1, es[1..], i); }
    }
  }

  /** In every run of a new pull, for every layer, for the config and for the manifest: it is given up for good if and only
      if the registry has refused it for want of authorisation, or six attempts at it have failed, or it was left between
      attempts once the caller had cancelled or, for a layer, once another layer was lost. */
  lemma LostExactly(r: Repo, repo: string, tag: string, desc: Descriptor, m: Manifest, es: seq<PullEvent>, i: nat)
    requires PullRun(r, NewPull(repo, tag, desc, m), es).Some? && i < |m.layers| + 2
    ensures var p, p' := NewPull(repo, tag, desc, m), PullRun(r, NewPull(repo, tag, desc, m), es).value.1;
            && i < |p'.tasks| && Failures(r, p, es, i) <= 6
            && (p'.tasks[i].phase == Lost <==> Denied(r, p, es, i) || Failures(r, p, es, i) == 6 || GivenUp(r, p, es, i, false))
  {
    var p := NewPull(repo, tag, desc, m);
    assert p.tasks[i].phase == Waiting && p.tasks[i].attempts == 0;
    LostTells(r, p, es, i);
  }

  // ---------------------------------------------------------------- and the pull

  ghost predicate Exhausted(r: Repo, p: Pull, es: seq<PullEvent>, i: nat) {
    i < |p.tasks| && !Over(p.tasks[i]) && (Denied(r, p, es, i) || FailedSoFar(p.tasks[i]) + Failures(r, p, es, i) == 6)
  }

  ghost predicate AllRegular(p: Pull) {
    forall i :: 0 <= i < |p.tasks| ==> Regular(p.tasks[i]) && p.tasks[i].phase != Lost
  }

  /** The first task to be lost is not left by anyone. */
  lemma {:induction false} SomeoneExhausted(r: Repo, p: Pull, es: seq<PullEvent>) returns (i: nat)
    requires AllRegular(p) && !p.cancelled && Cancel !in es && PullRun(r, p, es).Some? && AnyLost(PullRun(r, p, es).value.1.tasks)
    ensures Exhausted(r, p, es, i)
    decreases |es|
  {
    var e := es[0];
    var (r1, p1) := PullStep(r, p, e).value;
    assert e in es && forall x :: x in es[1..] ==> x in es;
    i := e.i;
    if !Over(p.tasks[i]) { StepCounts(r, p, e, i); }
    if p1.tasks[i].phase == Lost {
      LostTells(r, p, es, i);
      OverStays(r1, p1, es[1..], i, false);
    } else {
      var j := SomeoneExhausted(r1, p1, es[1..]);
      if j != i || !Over(p.tasks[i]) { i := j; }
    }
  }

  /** An event moves one task on, and one that has not started only through its gate. */
  lemma MovesOne(r: Repo, p: Pull, e: PullEvent)
    requires e.Move? && PullStep(r, p, e).Some?
    ensures 2 <= |p.tasks| && e.i < |p.tasks| && p.tasks[e.i].phase != Won
    ensures p.tasks[e.i].phase == Waiting ==> Gate(p.tasks, e.i)
    ensures var ts := PullStep(r, p, e).value.1.tasks;
            |ts| == |p.tasks| && ts[e.i].phase != Waiting && ts == p.tasks[e.i := ts[e.i]]
  {
  }

  lemma OrderedStep(r: Repo, p: Pull, e: PullEvent)
    requires Ordered(p.tasks) && PullStep(r, p, e).Some?
    ensures Ordered(PullStep(r, p, e).value.1.tasks) && |PullStep(r, p, e).value.1.tasks| == |p.tasks|
  {
    if e.Move? {
      MovesOne(r, p, e);
      OrderKept(p.tasks, e.i, PullStep(r, p, e).value.1.tasks[e.i]);
    }
  }

  lemma {:induction false} OrderedRun(r: Repo, p: Pull, es: seq<PullEvent>)
    requires Ordered(p.tasks) && PullRun(r, p, es).Some?
    ensures Ordered(PullRun(r, p, es).value.1.tasks) && |PullRun(r, p, es).value.1.tasks| == |p.tasks|
    decreases |es|
  {
    if es != [] {
      OrderedStep(r, p, es[0]);
      OrderedRun(PullStep(r, p, es[0]).value.0, PullStep(r, p, es[0]).value.1, es[1..]);
    }
  }

  /** Task `i` was refused or failed six times. */
  ghost predicate Failed(r: Repo, p: Pull, es: seq<PullEvent>, i: nat) {
    Denied(r, p, es, i) || Failures(r, p, es, i) >= 6
  }

  lemma LostFailed(r: Repo, p: Pull, es: seq<PullEvent>)
    requires (forall i :: 0 <= i < |p.tasks| ==> Unstarted(p.tasks[i])) && !p.cancelled && Cancel !in es && PullRun(r, p, es).Some?
    ensures AnyLost(PullRun(r, p, es).value.1.tasks) ==> exists i :: 0 <= i < |p.tasks| && Failed(r, p, es, i)
  {
    if AnyLost(PullRun(r, p, es).value.1.tasks) {
      var i := SomeoneExhausted(r, p, es);
      assert Unstarted(p.tasks[i]);
      assert Failed(r, p, es, i);
    }
  }

  lemma FailedLost(r: Repo, p: Pull, es: seq<PullEvent>, i: nat)
    requires i < |p.tasks| && Unstarted(p.tasks[i]) && PullRun(r, p, es).Some? && Failed(r, p, es, i)
    ensures AnyLost(PullRun(r, p, es).value.1.tasks)
  {
    LostTells(r, p, es, i);
  }

  /** Left alone by the caller, a pull that has returned has succeeded if and only if no layer, config or manifest was
      refused or failed six times. */
  lemma SucceedsExactly(r: Repo, repo: string, tag: string, desc: Descriptor, m: Manifest, es: seq<PullEvent>)
    requires PullRun(r, NewPull(repo, tag, desc, m), es).Some? && Cancel !in es && Returned(PullRun(r, NewPull(repo, tag, desc, m), es).value.1)
    ensures Succeeded(PullRun(r, NewPull(repo, tag, desc, m), es).value.1) <==>
            forall i :: 0 <= i < |m.layers| + 2 ==>
              !Failed(r, NewPull(repo, tag, desc, m), es, i)
  {
    var p := NewPull(repo, tag, desc, m);
    assert forall i :: 0 <= i < |p.tasks| ==> Unstarted(p.tasks[i]);
    OrderedRun(r, p, es);
    EndsOneWay(PullRun(r, p, es).value.1.tasks);
    LostFailed(r, p, es);
    forall i | 0 <= i < |m.layers| + 2 && Failed(r, p, es, i) ensures AnyLost(PullRun(r, p, es).value.1.tasks) {
      FailedLost(r, p, es, i);
    }
  }
}
