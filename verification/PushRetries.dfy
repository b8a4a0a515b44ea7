/** When a push gives a copy up, told by the events. */
module PushRetries {
  import opened Options
  import opened Oci
  import opened Store
  import opened Scheduling
  import opened Push

  /** The failure a move is: an error of one of the calls to the registry. */
  function FailureOf(m: Move): Option<Failure> {
    match m
    case AskFails(e) => Some(e)
    case TagFails(e) => Some(e)
    case SendFails(e, _) => Some(e)
    case _ => None
  }

  /** The next event is a failing move of task `i`. */
  predicate FailsNow(p: Push, e: Event, i: nat) {
    e.Move? && e.i == i < |p.tasks| && FailureOf(e.m).Some?
  }

  /** How many moves of task `i` fail in a run. */
  function Failures(r: Repo, p: Push, es: seq<Event>, i: nat): nat
    decreases |es|
  {
    if es == [] then 0
    else
      (if FailsNow(p, es[0], i) then 1 else 0)
      + match Step(r, p, es[0])
        case None => 0
        case Some((r1, p1)) => Failures(r1, p1, es[1..], i)
  }

  /** One of them is refused by the registry for want of authorisation. */
  predicate Denied(r: Repo, p: Push, es: seq<Event>, i: nat)
    decreases |es|
  {
    es != [] &&
    ( || (FailsNow(p, es[0], i) && FailureOf(es[0].m) == Some(Unauthorized))
      || match Step(r, p, es[0])
         case None => false
         case Some((r1, p1)) => Denied(r1, p1, es[1..], i))
  }

  /** Task `i` is given up between attempts, after the caller has cancelled (`called`: even before this run) or, if it is a
      layer, after another one was lost. */
  predicate GivenUp(r: Repo, p: Push, es: seq<Event>, i: nat, called: bool)
    decreases |es|
  {
    es != [] &&
    ( || (es[0] == Move(i, Abandon) && (called || (i < |p.tasks| - 2 && OtherLost(p.tasks, i))))
      || match Step(r, p, es[0])
         case None => false
         case Some((r1, p1)) => GivenUp(r1, p1, es[1..], i, called || es[0].Cancel?))
  }

  lemma MoveCounts(r: Repo, p: Push, t: Task<Pc>, m: Move)
    requires Regular(t) && TaskMove(r, p, t, m).Some?
    ensures var t', f := TaskMove(r, p, t, m).value.1, FailureOf(m);
            && Regular(t') && (f.Some? ==> FailedSoFar(t) < 6)
            && (t'.phase == Lost <==> f == Some(Unauthorized) || (f.Some? && FailedSoFar(t) == 5))
            && (!Over(t') ==> FailedSoFar(t') == FailedSoFar(t) + if f.Some? then 1 else 0)
            && (t'.phase == Won ==> f.None?)
  {
  }

  /** One event, for a task that is not over. */
  lemma StepCounts(r: Repo, p: Push, e: Event, i: nat)
    requires i < |p.tasks| && !Over(p.tasks[i]) && Regular(p.tasks[i]) && Step(r, p, e).Some?
    ensures var t, p1, f := p.tasks[i], Step(r, p, e).value.1, FailsNow(p, e, i);
            && |p1.tasks| == |p.tasks| && p1.cancelled == (p.cancelled || e.Cancel?)
            && Regular(p1.tasks[i]) && (f ==> FailedSoFar(t) < 6) && (p1.tasks[i].phase == Won ==> !f)
            && (p1.tasks[i].phase == Lost <==>
                || (f && (FailureOf(e.m) == Some(Unauthorized) || FailedSoFar(t) == 5))
                || (e == Move(i, Abandon) && (p.cancelled || (i < |p.tasks| - 2 && OtherLost(p.tasks, i)))))
            && (!Over(p1.tasks[i]) ==> FailedSoFar(p1.tasks[i]) == FailedSoFar(t) + if f then 1 else 0)
  {
    if e.Move? && e.i == i && !e.m.Start? && !e.m.Abandon? { MoveCounts(r, p, p.tasks[i], e.m); }
  }

  lemma StepKeepsOver(r: Repo, p: Push, e: Event, i: nat)
    requires i < |p.tasks| && Over(p.tasks[i]) && Step(r, p, e).Some?
    ensures i < |Step(r, p, e).value.1.tasks| && Step(r, p, e).value.1.tasks[i] == p.tasks[i]
    ensures !FailsNow(p, e, i) && e != Move(i, Abandon)
  {
  }

  lemma {:induction false} OverStays(r: Repo, p: Push, es: seq<Event>, i: nat, called: bool)
    requires i < |p.tasks| && Over(p.tasks[i]) && Run(r, p, es).Some?
    ensures Failures(r, p, es, i) == 0 && !Denied(r, p, es, i) && !GivenUp(r, p, es, i, called)
    ensures i < |Run(r, p, es).value.1.tasks| && Run(r, p, es).value.1.tasks[i] == p.tasks[i]
    decreases |es|
  {
    if es != [] {
      var (r1, p1) := Step(r, p, es[0]).value;
      StepKeepsOver(r, p, es[0], i);
      OverStays(r1, p1, es[1..], i, called || es[0].Cancel?);
    }
  }

  /** A task that is not over at the start of a run. */
  lemma {:induction false} LostTells(r: Repo, p: Push, es: seq<Event>, i: nat)
    requires i < |p.tasks| && !Over(p.tasks[i]) && Regular(p.tasks[i]) && Run(r, p, es).Some?
    ensures i < |Run(r, p, es).value.1.tasks|
    ensures FailedSoFar(p.tasks[i]) + Failures(r, p, es, i) <= 6
    ensures Run(r, p, es).value.1.tasks[i].phase == Lost <==>
            Denied(r, p, es, i) || FailedSoFar(p.tasks[i]) + Failures(r, p, es, i) == 6 || GivenUp(r, p, es, i, p.cancelled)
    decreases |es|
  {
    if es != [] {
      var (r1, p1) := Step(r, p, es[0]).value;
      StepCounts(r, p, es[0], i);
      if Over(p1.tasks[i]) { OverStays(r1, p1, es[1..], i, p1.cancelled); } else { LostTells(r1, p1, es[1..], i); }
    }
  }

  /** In every run of a new push, for every layer, for the config and for the manifest: it is given up for good if and only
      if the registry has refused it for want of authorisation, or six attempts at it have failed, or it was left between
      attempts once the caller had cancelled or, for a layer, once another layer was lost. */
  lemma LostExactly(r: Repo, src: Repo, inline: map<Digest, Content>, tag: string, m: Manifest, es: seq<Event>, i: nat)
    requires Run(r, NewPush(src, inline, tag, m), es).Some? && i < |m.layers| + 2
    ensures var p, p' := NewPush(src, inline, tag, m), Run(r, NewPush(src, inline, tag, m), es).value.1;
            && i < |p'.tasks| && Failures(r, p, es, i) <= 6
            && (p'.tasks[i].phase == Lost <==> Denied(r, p, es, i) || Failures(r, p, es, i) == 6 || GivenUp(r, p, es, i, false))
  {
    var p := NewPush(src, inline, tag, m);
    assert p.tasks[i].phase == Waiting && p.tasks[i].attempts == 0;
    LostTells(r, p, es, i);
  }

  // ---------------------------------------------------------------- and the push

  ghost predicate Exhausted(r: Repo, p: Push, es: seq<Event>, i: nat) {
    i < |p.tasks| && !Over(p.tasks[i]) && (Denied(r, p, es, i) || FailedSoFar(p.tasks[i]) + Failures(r, p, es, i) == 6)
  }

  ghost predicate AllRegular(p: Push) {
    forall i :: 0 <= i < |p.tasks| ==> Regular(p.tasks[i]) && p.tasks[i].phase != Lost
  }

  /** The first task to be lost is not left by anyone. */
  lemma {:induction false} SomeoneExhausted(r: Repo, p: Push, es: seq<Event>) returns (i: nat)
    requires AllRegular(p) && !p.cancelled && Cancel !in es && Run(r, p, es).Some? && AnyLost(Run(r, p, es).value.1.tasks)
    ensures Exhausted(r, p, es, i)
    decreases |es|
  {
    var e := es[0];
    var (r1, p1) := Step(r, p, e).value;
    assert e in es && forall x :: x in es[1..] ==> x in es;
    i := e.i;
    if !Over(p.tasks[i]) { StepCounts(r, p, e, i); }
    if p1.tasks[i].phase == Lost {
      LostTells(r, p, es, i);
      OverStays(r1, p1, es[1..], i, false);
    } else {
      var j := SomeoneExhausted(r1, p1, es[1..]);
      if j != i || !Over(p.tasks[i]) { i := j; }
    }
  }

  /** An event moves one task on, and one that has not started only through its gate. */
  lemma MovesOne(r: Repo, p: Push, e: Event)
    requires e.Move? && Step(r, p, e).Some?
    ensures 2 <= |p.tasks| && e.i < |p.tasks| && p.tasks[e.i].phase != Won
    ensures p.tasks[e.i].phase == Waiting ==> Gate(p.tasks, e.i)
    ensures var ts := Step(r, p, e).value.1.tasks;
            |ts| == |p.tasks| && ts[e.i].phase != Waiting && ts == p.tasks[e.i := ts[e.i]]
  {
  }

  lemma OrderedStep(r: Repo, p: Push, e: Event)
    requires Ordered(p.tasks) && Step(r, p, e).Some?
    ensures Ordered(Step(r, p, e).value.1.tasks) && |Step(r, p, e).value.1.tasks| == |p.tasks|
  {
    if e.Move? {
      MovesOne(r, p, e);
      OrderKept(p.tasks, e.i, Step(r, p, e).value.1.tasks[e.i]);
    }
  }

  lemma {:induction false} OrderedRun(r: Repo, p: Push, es: seq<Event>)
    requires Ordered(p.tasks) && Run(r, p, es).Some?
    ensures Ordered(Run(r, p, es).value.1.tasks) && |Run(r, p, es).value.1.tasks| == |p.tasks|
    decreases |es|
  {
    if es != [] {
      OrderedStep(r, p, es[0]);
      OrderedRun(Step(r, p, es[0]).value.0, Step(r, p, es[0]).value.1, es[1..]);
    }
  }

  /** Task `i` was refused or failed six times. */
  ghost predicate Failed(r: Repo, p: Push, es: seq<Event>, i: nat) {
    Denied(r, p, es, i) || Failures(r, p, es, i) >= 6
  }

  lemma LostFailed(r: Repo, p: Push, es: seq<Event>)
    requires (forall i :: 0 <= i < |p.tasks| ==> Unstarted(p.tasks[i])) && !p.cancelled && Cancel !in es && Run(r, p, es).Some?
    ensures AnyLost(Run(r, p, es).value.1.tasks) ==> exists i :: 0 <= i < |p.tasks| && Failed(r, p, es, i)
  {
    if AnyLost(Run(r, p, es).value.1.tasks) {
      var i := SomeoneExhausted(r, p, es);
      assert Unstarted(p.tasks[i]);
      assert Failed(r, p, es, i);
    }
  }

  lemma FailedLost(r: Repo, p: Push, es: seq<Event>, i: nat)
    requires i < |p.tasks| && Unstarted(p.tasks[i]) && Run(r, p, es).Some? && Failed(r, p, es, i)
    ensures AnyLost(Run(r, p, es).value.1.tasks)
  {
    LostTells(r, p, es, i);
  }

  /** Left alone by the caller, a push that has returned has succeeded if and only if no layer, config or manifest was
      refused or failed six times. */
  lemma SucceedsExactly(r: Repo, src: Repo, inline: map<Digest, Content>, tag: string, m: Manifest, es: seq<Event>)
    requires Run(r, NewPush(src, inline, tag, m), es).Some? && Cancel !in es && Settled(Run(r, NewPush(src, inline, tag, m), es).value.1.tasks)
    ensures Succeeded(Run(r, NewPush(src, inline, tag, m), es).value.1) <==>
            forall i :: 0 <= i < |m.layers| + 2 ==>
              !Failed(r, NewPush(src, inline, tag, m), es, i)
  {
    var p := NewPush(src, inline, tag, m);
    assert forall i :: 0 <= i < |p.tasks| ==> Unstarted(p.tasks[i]);
    OrderedRun(r, p, es);
    EndsOneWay(Run(r, p, es).value.1.tasks);
    LostFailed(r, p, es);
    forall i | 0 <= i < |m.layers| + 2 && Failed(r, p, es, i) ensures AnyLost(Run(r, p, es).value.1.tasks) {
      FailedLost(r, p, es, i);
    }
  }
}
