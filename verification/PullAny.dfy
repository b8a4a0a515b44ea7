/** Closure under any remote and any hooks, exactly. */
module PullAny {
  import opened Options
  import opened Oci
  import opened Store
  import opened Scheduling
  import opened Transfer
  import opened PullRuns
  import opened PullExact

  // ---------------------------------------------------------------- the condition

  /** Fetching `j` can put in the store what is looked up for `d`. */
  ghost predicate Brings(r: Repo, s: Setting, j: Descriptor, d: Descriptor) {
    && !Present(r, j) && Accepts(j, s.answer(j))
    && j.mediaType.ImageManifest? == d.mediaType.ImageManifest? && Sha256(s.answer(j)) == d.digest
  }

  /** `d` is there, or fetching one of `ds` can bring it, its own answer or a wrong answer to another. */
  ghost predicate Had(r: Repo, s: Setting, ds: seq<Descriptor>, d: Descriptor) {
    Present(r, d) || exists j :: j in ds && Brings(r, s, j, d)
  }

  /** Every layer can be skipped or had. */
  ghost predicate AllPass(r: Repo, s: Setting, ls: seq<Descriptor>) {
    forall l :: l in ls ==> s.skips(l) || Had(r, s, ls, l)
  }

  /** The layers no hook may skip. */
  ghost function Kept(s: Setting, ls: seq<Descriptor>): (k: seq<Descriptor>)
    ensures forall l :: l in k <==> l in ls && !s.skips(l)
  {
    if ls == [] then []
    else
      var rest := Kept(s, ls[1..]);
      assert forall l :: l in ls <==> l == ls[0] || l in ls[1..];
      if s.skips(ls[0]) then rest else [ls[0]] + rest
  }

  /** The answer for `d`, if it would be stored as a manifest, rests on `blobs`. */
  ghost predicate Fine(r: Repo, s: Setting, d: Descriptor, blobs: set<Digest>) {
    d.mediaType.ImageManifest? && !Present(r, d) && s.answer(d).Doc? ==> References(s.answer(d)) <= blobs
  }

  /** Every manifest that may be stored rests on what is surely there by then: an answer for a layer on the blobs at the
      start; if the pull can get past the layers, that for the config also on the layers no hook may skip; and if it can
      get past the config, that for the manifest also on the config. */
  ghost predicate KeepsClosedUnder(r: Repo, s: Setting, desc: Descriptor, m: Manifest) {
    && (forall l :: l in m.layers ==> Fine(r, s, l, r.blobs.Keys))
    && (AllPass(r, s, m.layers) ==> Fine(r, s, m.config, r.blobs.Keys + PlainDigests(Kept(s, m.layers))))
    && (AllPass(r, s, m.layers) && Had(r, s, Front(m), m.config) ==>
          Fine(r, s, desc, r.blobs.Keys + PlainDigests(Kept(s, m.layers) + [m.config])))
  }

  // ---------------------------------------------------------------- what every run keeps

  ghost predicate Knows(r0: Repo, r: Repo, s: Setting, t: Task<Pc>) {
    && (t.phase == Won || t.phase == Busy(Skipping) ==> (t.hooked && s.skips(t.desc)) || Present(r, t.desc))
    && (t.phase.Busy? && (t.phase.at.Checking? || t.phase.at.Storing? || t.phase.at.Validating?) ==> t.phase.at.body == s.answer(t.desc))
    && (t.phase.Busy? && t.phase.at.Storing? ==> !Present(r0, t.desc))
    && (t.phase.Busy? && t.phase.at.Validating? ==> Present(r, Descriptor(t.desc.mediaType, Sha256(t.phase.at.body))))
  }

  ghost predicate Started(r0: Repo, s: Setting, ts: seq<Task<Pc>>, d: Descriptor) {
    exists j :: 0 <= j < |ts| && ts[j].phase != Waiting && Brings(r0, s, ts[j].desc, d)
  }

  /** Whatever is there was there, or was brought by a task that has started. */
  ghost predicate Sourced(r0: Repo, r: Repo, s: Setting, ts: seq<Task<Pc>>) {
    forall d: Descriptor :: Present(r, d) ==> Present(r0, d) || Started(r0, s, ts, d)
  }

  ghost predicate AllKnow(r0: Repo, r: Repo, s: Setting, ts: seq<Task<Pc>>) {
    forall i :: 0 <= i < |ts| ==> Knows(r0, r, s, ts[i])
  }

  /** What it means that the config, or the manifest, has started. */
  ghost predicate Passed(r0: Repo, s: Setting, m: Manifest, ts: seq<Task<Pc>>) {
    && 2 <= |ts|
    && (ts[|ts| - 2].phase != Waiting ==> AllPass(r0, s, m.layers))
    && (ts[|ts| - 1].phase != Waiting ==> Had(r0, s, Front(m), m.config))
  }

  /** `r0` is the repository at the start. */
  ghost predicate Inv(r0: Repo, r: Repo, s: Setting, p: Pull) {
    && Shape(p) && Ordered(p.tasks) && Keeps(r0, r) && Sourced(r0, r, s, p.tasks)
    && AllKnow(r0, r, s, p.tasks) && Passed(r0, s, p.manifest, p.tasks)
  }

  lemma MoveKnows(r0: Repo, r: Repo, s: Setting, tag: string, t: Task<Pc>, m: Move)
    requires Knows(r0, r, s, t) && Keeps(r0, r) && TaskMove(r, tag, t, m).Some?
    requires (m.Fetched? ==> m.body == s.answer(t.desc)) && (m.Attempt? && m.skip ==> Present(r, t.desc) || s.skips(t.desc))
    ensures var (r', t') := TaskMove(r, tag, t, m).value;
            Knows(r0, r', s, t') && Keeps(r, r') && t'.desc == t.desc && t'.hooked == t.hooked && t'.phase != Waiting
  {
  }

  lemma MoveBrings(r0: Repo, r: Repo, s: Setting, tag: string, t: Task<Pc>, m: Move, d: Descriptor)
    requires Knows(r0, r, s, t) && TaskMove(r, tag, t, m).Some?
    ensures Present(TaskMove(r, tag, t, m).value.0, d) ==> Present(r, d) || Brings(r0, s, t.desc, d)
  {
  }

  lemma SourcedKept(r0: Repo, r: Repo, s: Setting, ts: seq<Task<Pc>>, i: nat, t: Task<Pc>, r': Repo)
    requires Sourced(r0, r, s, ts) && i < |ts| && t.phase != Waiting && t.desc == ts[i].desc
    requires forall d: Descriptor :: Present(r', d) ==> Present(r, d) || Brings(r0, s, t.desc, d)
    ensures Sourced(r0, r', s, ts[i := t])
  {
    var ts' := ts[i := t];
    forall d: Descriptor | Present(r', d) ensures Present(r0, d) || Started(r0, s, ts', d) {
      if Brings(r0, s, t.desc, d) {
        assert ts'[i].phase != Waiting && Brings(r0, s, ts'[i].desc, d);
      } else if !Present(r0, d) {
        var j :| 0 <= j < |ts| && ts[j].phase != Waiting && Brings(r0, s, ts[j].desc, d);
        assert ts'[j].phase != Waiting && Brings(r0, s, ts'[j].desc, d);
      }
    }
  }

  /** When the layers are over, each could be skipped or had. */
  lemma LayersPass(r0: Repo, r: Repo, s: Setting, p: Pull)
    requires Inv(r0, r, s, p) && Gate(p.tasks, |p.tasks| - 2) && p.tasks[|p.tasks| - 2].phase == Waiting
    ensures AllPass(r0, s, p.manifest.layers)
  {
    var ls, n := p.manifest.layers, |p.manifest.layers|;
    forall l | l in ls ensures s.skips(l) || Had(r0, s, ls, l) {
      var i :| 0 <= i < n && ls[i] == l;
      assert Knows(r0, r, s, p.tasks[i]);
      if !s.skips(l) && !Present(r0, l) {
        var j :| 0 <= j < n + 2 && p.tasks[j].phase != Waiting && Brings(r0, s, p.tasks[j].desc, l);
        assert j < n && ls[j] in ls;
      }
    }
  }

  lemma ConfigHad(r0: Repo, r: Repo, s: Setting, p: Pull)
    requires Inv(r0, r, s, p) && p.tasks[|p.tasks| - 2].phase == Won && p.tasks[|p.tasks| - 1].phase == Waiting
    ensures Had(r0, s, Front(p.manifest), p.manifest.config)
  {
    var m, n := p.manifest, |p.manifest.layers|;
    assert Knows(r0, r, s, p.tasks[n]) && Present(r, m.config);
    if !Present(r0, m.config) {
      var j :| 0 <= j < n + 2 && p.tasks[j].phase != Waiting && Brings(r0, s, p.tasks[j].desc, m.config);
      assert j <= n && Front(m)[j] == p.tasks[j].desc;
    }
  }

  lemma InvKept(r0: Repo, r: Repo, s: Setting, p: Pull, i: nat, t: Task<Pc>, r': Repo)
    requires Inv(r0, r, s, p) && i < |p.tasks| && Keeps(r, r') && Knows(r0, r', s, t) && t.phase != Waiting
    requires t.desc == p.tasks[i].desc && t.hooked == p.tasks[i].hooked && Ordered(p.tasks[i := t])
    requires forall d: Descriptor :: Present(r', d) ==> Present(r, d) || Brings(r0, s, t.desc, d)
    requires i == |p.tasks| - 2 && p.tasks[i].phase == Waiting ==> AllPass(r0, s, p.manifest.layers)
    requires i == |p.tasks| - 1 && p.tasks[i].phase == Waiting ==> Had(r0, s, Front(p.manifest), p.manifest.config)
    ensures Inv(r0, r', s, p.(tasks := p.tasks[i := t]))
  {
    SourcedKept(r0, r, s, p.tasks, i, t, r');
    KnowledgeKept(r0, r, s, p.tasks, i, t, r');
    PassedKept(r0, s, p.manifest, p.tasks, i, t);
  }

  lemma KnowledgeKept(r0: Repo, r: Repo, s: Setting, ts: seq<Task<Pc>>, i: nat, t: Task<Pc>, r': Repo)
    requires AllKnow(r0, r, s, ts) && i < |ts| && Keeps(r, r') && Knows(r0, r', s, t)
    ensures AllKnow(r0, r', s, ts[i := t])
  {
    var ts' := ts[i := t];
    forall k | 0 <= k < |ts'| ensures Knows(r0, r', s, ts'[k]) { assert Knows(r0, r, s, ts[k]); }
  }

  lemma PassedKept(r0: Repo, s: Setting, m: Manifest, ts: seq<Task<Pc>>, i: nat, t: Task<Pc>)
    requires Passed(r0, s, m, ts) && i < |ts|
    requires i == |ts| - 2 && ts[i].phase == Waiting ==> AllPass(r0, s, m.layers)
    requires i == |ts| - 1 && ts[i].phase == Waiting ==> Had(r0, s, Front(m), m.config)
    ensures Passed(r0, s, m, ts[i := t])
  {
  }

  lemma TurnKeeps(r0: Repo, r: Repo, s: Setting, p: Pull, i: nat, m: Move)
    requires Inv(r0, r, s, p) && (m.Start? || m.Abandon?) && PullStep(r, p, Move(i, m)).Some?
    ensures var (r', p') := PullStep(r, p, Move(i, m)).value; r' == r && Inv(r0, r, s, p')
  {
    var t, t' := p.tasks[i], PullStep(r, p, Move(i, m)).value.1.tasks[i];
    assert Knows(r0, r, s, t);
    if i == |p.tasks| - 2 && t.phase == Waiting { LayersPass(r0, r, s, p); }
    if i == |p.tasks| - 1 && t.phase == Waiting { ConfigHad(r0, r, s, p); }
    OrderKept(p.tasks, i, t');
    InvKept(r0, r, s, p, i, t', r);
  }

  lemma AttemptKeeps(r0: Repo, r: Repo, s: Setting, p: Pull, i: nat, m: Move)
    requires Inv(r0, r, s, p) && Trusted(r, p, Move(i, m), Any(s)) && !m.Start? && !m.Abandon?
    requires i < |p.tasks| && TaskMove(r, p.tag, p.tasks[i], m).Some?
    ensures var (r', t') := TaskMove(r, p.tag, p.tasks[i], m).value; Inv(r0, r', s, p.(tasks := p.tasks[i := t']))
  {
    var t := p.tasks[i];
    var (r', t') := TaskMove(r, p.tag, t, m).value;
    assert Knows(r0, r, s, t);
    MoveKnows(r0, r, s, p.tag, t, m);
    forall d: Descriptor ensures Present(r', d) ==> Present(r, d) || Brings(r0, s, t.desc, d) { MoveBrings(r0, r, s, p.tag, t, m, d); }
    OrderKept(p.tasks, i, t');
    InvKept(r0, r, s, p, i, t', r');
  }

  lemma {:induction false} InvStep(r0: Repo, r: Repo, s: Setting, p: Pull, e: PullEvent)
    requires Inv(r0, r, s, p) && Trusted(r, p, e, Any(s)) && PullStep(r, p, e).Some?
    ensures Inv(r0, PullStep(r, p, e).value.0, s, PullStep(r, p, e).value.1)
    ensures PullStep(r, p, e).value.1.manifest == p.manifest && Last(PullStep(r, p, e).value.1).desc == Last(p).desc
  {
    match e
    case Cancel =>
    case Move(i, m) => if m.Start? || m.Abandon? { TurnKeeps(r0, r, s, p, i, m); } else { AttemptKeeps(r0, r, s, p, i, m); }
  }

  /** What is about to be stored rests on what is there. */
  lemma StoringRestsHere(r0: Repo, r: Repo, s: Setting, p: Pull, i: nat)
    requires Inv(r0, r, s, p) && KeepsClosedUnder(r0, s, Last(p).desc, p.manifest) && i < |p.tasks|
    requires p.tasks[i].desc.mediaType.ImageManifest? && p.tasks[i].phase.Busy? && p.tasks[i].phase.at.Storing? && p.tasks[i].phase.at.body.Doc?
    ensures References(p.tasks[i].phase.at.body) <= r.blobs.Keys
  {
    var m, n := p.manifest, |p.manifest.layers|;
    assert Knows(r0, r, s, p.tasks[i]);
    if i < n {
      assert m.layers[i] in m.layers;
    } else {
      KeptStored(r0, r, s, p);
      if i == n + 1 {
        assert Knows(r0, r, s, p.tasks[n]);
        DigestsAppend(Kept(s, m.layers), [m.config]);
      }
    }
  }

  lemma KeptStored(r0: Repo, r: Repo, s: Setting, p: Pull)
    requires Inv(r0, r, s, p) && p.tasks[|p.tasks| - 2].phase != Waiting
    ensures PlainDigests(Kept(s, p.manifest.layers)) <= r.blobs.Keys
  {
    var ls := p.manifest.layers;
    forall l | l in Kept(s, ls) && !l.mediaType.ImageManifest? ensures l.digest in r.blobs {
      var k :| 0 <= k < |ls| && ls[k] == l;
      assert Knows(r0, r, s, p.tasks[k]);
    }
  }

  lemma MoveCloses(r: Repo, tag: string, t: Task<Pc>, m: Move)
    requires Closed(r) && TaskMove(r, tag, t, m).Some?
    requires t.desc.mediaType.ImageManifest? && t.phase.Busy? && t.phase.at.Storing? && t.phase.at.body.Doc? ==>
               References(t.phase.at.body) <= r.blobs.Keys
    ensures Closed(TaskMove(r, tag, t, m).value.0)
  {
  }

  lemma ClosedStep(r0: Repo, r: Repo, s: Setting, p: Pull, e: PullEvent)
    requires Inv(r0, r, s, p) && KeepsClosedUnder(r0, s, Last(p).desc, p.manifest) && Closed(r) && PullStep(r, p, e).Some?
    ensures Closed(PullStep(r, p, e).value.0)
  {
    if e.Move? && !e.m.Start? && !e.m.Abandon? {
      var t := p.tasks[e.i];
      if t.desc.mediaType.ImageManifest? && t.phase.Busy? && t.phase.at.Storing? && t.phase.at.body.Doc? { StoringRestsHere(r0, r, s, p, e.i); }
      MoveCloses(r, p.tag, t, e.m);
    }
  }

  lemma {:induction false} ClosedUnderRun(r0: Repo, r: Repo, s: Setting, p: Pull, es: seq<PullEvent>)
    requires Inv(r0, r, s, p) && KeepsClosedUnder(r0, s, Last(p).desc, p.manifest) && Closed(r)
    requires TrustedRun(r, p, es, Any(s)) && PullRun(r, p, es).Some?
    ensures Closed(PullRun(r, p, es).value.0)
    decreases |es|
  {
    if es != [] {
      InvStep(r0, r, s, p, es[0]);
      ClosedStep(r0, r, s, p, es[0]);
      ClosedUnderRun(r0, PullStep(r, p, es[0]).value.0, s, PullStep(r, p, es[0]).value.1, es[1..]);
    }
  }

  lemma NewPullUnder(r: Repo, s: Setting, repo: string, tag: string, desc: Descriptor, m: Manifest)
    ensures Inv(r, r, s, NewPull(repo, tag, desc, m))
  {
    var p, n := NewPull(repo, tag, desc, m), |m.layers|;
    assert forall i :: 0 <= i < n ==> p.tasks[i] == Fresh(m.layers[i], true);
    assert p.tasks[n] == Fresh(m.config, false) && p.tasks[n + 1] == Fresh(desc, false);
  }

  // ---------------------------------------------------------------- a run that gets past the layers

  /** The same pull, further on. */
  ghost predicate Further(p: Pull, q: Pull) {
    Later(p, q) && forall k :: 0 <= k < |p.tasks| ==> q.tasks[k].desc == p.tasks[k].desc && q.tasks[k].hooked == p.tasks[k].hooked
  }

  /** A layer that was fetched and looked for: found, or about to be stored. */
  ghost predicate Asked(r: Repo, s: Setting, t: Task<Pc>) {
    if Present(r, t.desc) then t.phase == Won else t.phase == Busy(Storing(s.answer(t.desc))) && t.attempts == 1
  }

  /** A layer after its first attempt. */
  ghost predicate Tried(t: Task<Pc>) {
    t.phase == Won || (t.phase == Ready && t.attempts == 1)
  }

  lemma AskOnce(r: Repo, p: Pull, i: nat, s: Setting) returns (es: seq<PullEvent>, p': Pull)
    requires i + 2 < |p.tasks| && Unstarted(p.tasks[i])
    ensures PullRun(r, p, es) == Some((r, p')) && TrustedRun(r, p, es, Any(s)) && Further(p, p') && Asked(r, s, p'.tasks[i])
    ensures forall k :: 0 <= k < |p.tasks| && k != i ==> p'.tasks[k] == p.tasks[k]
  {
    var t := p.tasks[i].(phase := Ready);
    var t' := Begin(t, Fetching, false);
    es := Fetch(r, p, i, t, s.answer(t.desc), [], Any(s));
    StartFirst(r, p, i, es, Any(s));
    es := [Move(i, Start)] + es;
    p' := Put(p, i, if Present(r, t.desc) then Finish(t', false, None) else t'.(phase := Busy(Storing(s.answer(t.desc)))));
  }

  /** All layers from `i` on are fetched and looked for before any is stored. */
  lemma {:induction false} AskAll(r: Repo, p: Pull, i: nat, s: Setting) returns (es: seq<PullEvent>, p': Pull)
    requires 2 <= |p.tasks| && i <= |p.tasks| - 2
    requires forall k :: 0 <= k < i ==> Asked(r, s, p.tasks[k])
    requires forall k :: i <= k < |p.tasks| ==> Unstarted(p.tasks[k])
    ensures PullRun(r, p, es) == Some((r, p')) && TrustedRun(r, p, es, Any(s)) && Further(p, p')
    ensures forall k :: 0 <= k < |p.tasks| - 2 ==> Asked(r, s, p'.tasks[k])
    ensures forall k :: |p.tasks| - 2 <= k < |p.tasks| ==> Unstarted(p'.tasks[k])
    decreases |p.tasks| - i
  {
    if i == |p.tasks| - 2 {
      es, p' := [], p;
    } else {
      var first, p1 := AskOnce(r, p, i, s);
      var rest;
      rest, p' := AskAll(r, p1, i + 1, s);
      PullRunAppend(r, p, first, rest, Any(s));
      es := first + rest;
    }
  }

  /** `r` has more than `r0` had, but nothing that is not wanted. */
  ghost predicate Within(r0: Repo, r: Repo, want: seq<Descriptor>) {
    && Keeps(r0, r)
    && r.blobs.Keys <= r0.blobs.Keys + PlainDigests(want)
    && r.manifests.Keys <= r0.manifests.Keys + NestedDigests(want)
  }

  /** What `j` brings of what is wanted is there. */
  ghost predicate Delivered(r0: Repo, r: Repo, s: Setting, j: Descriptor, want: seq<Descriptor>) {
    forall d :: d in want && Brings(r0, s, j, d) ==> Present(r, d)
  }

  lemma LandedWithin(r0: Repo, r: Repo, s: Setting, tag: string, j: Descriptor, d: Descriptor, want: seq<Descriptor>)
    requires Within(r0, r, want) && d in want && Brings(r0, s, j, d)
    ensures var r' := Landed(r, tag, j, s.answer(j)); Within(r0, r', want) && Keeps(r, r') && Delivered(r0, r', s, j, want)
  {
  }

  /** A layer about to be stored is stored, if that brings what is wanted, or its write fails. */
  lemma SettleOnce(r0: Repo, r: Repo, p: Pull, i: nat, s: Setting, want: seq<Descriptor>) returns (es: seq<PullEvent>, r': Repo, p': Pull)
    requires i + 2 < |p.tasks| && Asked(r0, s, p.tasks[i]) && Within(r0, r, want)
    ensures PullRun(r, p, es) == Some((r', p')) && TrustedRun(r, p, es, Any(s)) && Further(p, p')
    ensures Within(r0, r', want) && Keeps(r, r') && Delivered(r0, r', s, p.tasks[i].desc, want) && Tried(p'.tasks[i])
    ensures forall k :: 0 <= k < |p.tasks| && k != i ==> p'.tasks[k] == p.tasks[k]
  {
    var t := p.tasks[i];
    var body := s.answer(t.desc);
    assert Put(p, i, t) == p;
    if Present(r0, t.desc) {
      es, r', p' := [], r, p;
    } else if d :| d in want && Brings(r0, s, t.desc, d) {
      es := StoreAndCheck(r, p, i, t, body, Any(s));
      r', p' := Landed(r, p.tag, t.desc, body), Put(p, i, Finish(t, false, if t.desc.digest == Sha256(body) then None else Some(Transient)));
      LandedWithin(r0, r, s, p.tag, t.desc, d, want);
    } else {
      es := [Move(i, StoreFails(Transient, false))] + [];
      HeadMove(r, p, i, t, StoreFails(Transient, false), [], Any(s));
      r', p' := r, Put(p, i, Finish(t, false, Some(Transient)));
    }
  }

  lemma {:induction false} SettleAll(r0: Repo, r: Repo, p: Pull, i: nat, s: Setting, want: seq<Descriptor>)
    returns (es: seq<PullEvent>, r': Repo, p': Pull)
    requires 2 <= |p.tasks| && i <= |p.tasks| - 2 && Within(r0, r, want)
    requires forall k :: 0 <= k < i ==> Tried(p.tasks[k]) && Delivered(r0, r, s, p.tasks[k].desc, want)
    requires forall k :: i <= k < |p.tasks| - 2 ==> Asked(r0, s, p.tasks[k])
    ensures PullRun(r, p, es) == Some((r', p')) && TrustedRun(r, p, es, Any(s)) && Further(p, p') && Within(r0, r', want)
    ensures forall k :: 0 <= k < |p.tasks| - 2 ==> Tried(p'.tasks[k]) && Delivered(r0, r', s, p.tasks[k].desc, want)
    ensures forall k :: |p.tasks| - 2 <= k < |p.tasks| ==> p'.tasks[k] == p.tasks[k]
    decreases |p.tasks| - i
  {
    if i == |p.tasks| - 2 {
      es, r', p' := [], r, p;
    } else {
      var first, r1, p1 := SettleOnce(r0, r, p, i, s, want);
      forall k | 0 <= k <= i ensures Tried(p1.tasks[k]) && Delivered(r0, r1, s, p1.tasks[k].desc, want) {
        if k < i { DeliveredKept(r0, r, s, p.tasks[k].desc, want, r1); }
      }
      var rest;
      rest, r', p' := SettleAll(r0, r1, p1, i + 1, s, want);
      PullRunAppend(r, p, first, rest, Any(s));
      es := first + rest;
    }
  }

  lemma DeliveredKept(r0: Repo, r: Repo, s: Setting, j: Descriptor, want: seq<Descriptor>, r': Repo)
    requires Delivered(r0, r, s, j, want) && Keeps(r, r')
    ensures Delivered(r0, r', s, j, want)
  {
    forall d | d in want && Brings(r0, s, j, d) ensures Present(r', d) { assert Present(r, d); }
  }

  /** The second attempt skips a layer or finds it. */
  lemma FinishOnce(r: Repo, p: Pull, i: nat, s: Setting) returns (es: seq<PullEvent>, p': Pull)
    requires i + 2 < |p.tasks| && Tried(p.tasks[i]) && p.tasks[i].hooked && (s.skips(p.tasks[i].desc) || Present(r, p.tasks[i].desc))
    ensures PullRun(r, p, es) == Some((r, p')) && TrustedRun(r, p, es, Any(s)) && Further(p, p') && p'.tasks[i].phase == Won
    ensures forall k :: 0 <= k < |p.tasks| && k != i ==> p'.tasks[k] == p.tasks[k]
  {
    var t := p.tasks[i];
    assert Put(p, i, t) == p;
    if t.phase == Won {
      es, p' := [], p;
    } else if Present(r, t.desc) {
      es := Fetch(r, p, i, t, s.answer(t.desc), [], Any(s));
      p' := Put(p, i, Finish(Begin(t, Fetching, false), false, None));
    } else {
      es := [Move(i, SkipDone)] + [];
      HeadMove(r, p, i, Begin(t, Skipping, true), SkipDone, [], Any(s));
      HeadMove(r, p, i, t, Attempt(true), es, Any(s));
      es := [Move(i, Attempt(true))] + es;
      p' := Put(p, i, Finish(Begin(t, Skipping, true), true, None));
    }
  }

  lemma {:induction false} FinishAll(r: Repo, p: Pull, i: nat, s: Setting) returns (es: seq<PullEvent>, p': Pull)
    requires 2 <= |p.tasks| && i <= |p.tasks| - 2
    requires forall k :: 0 <= k < i ==> p.tasks[k].phase == Won
    requires forall k :: i <= k < |p.tasks| - 2 ==>
               Tried(p.tasks[k]) && p.tasks[k].hooked && (s.skips(p.tasks[k].desc) || Present(r, p.tasks[k].desc))
    ensures PullRun(r, p, es) == Some((r, p')) && TrustedRun(r, p, es, Any(s)) && Further(p, p')
    ensures forall k :: 0 <= k < |p.tasks| - 2 ==> p'.tasks[k].phase == Won
    ensures forall k :: |p.tasks| - 2 <= k < |p.tasks| ==> p'.tasks[k] == p.tasks[k]
    decreases |p.tasks| - i
  {
    if i == |p.tasks| - 2 {
      es, p' := [], p;
    } else {
      var first, p1 := FinishOnce(r, p, i, s);
      var rest;
      rest, p' := FinishAll(r, p1, i + 1, s);
      PullRunAppend(r, p, first, rest, Any(s));
      es := first + rest;
    }
  }

  /** A new pull that got past its layers, and brought nothing but what is wanted. */
  lemma PassLayers(r: Repo, s: Setting, p: Pull, m: Manifest, want: seq<Descriptor>)
    returns (es: seq<PullEvent>, r1: Repo, p1: Pull)
    requires |p.tasks| == |m.layers| + 2 && forall k :: 0 <= k < |p.tasks| ==> Unstarted(p.tasks[k])
    requires forall k :: 0 <= k < |m.layers| ==> p.tasks[k].desc == m.layers[k] && p.tasks[k].hooked
    requires AllPass(r, s, m.layers) && forall l :: l in Kept(s, m.layers) ==> l in want
    ensures PullRun(r, p, es) == Some((r1, p1)) && TrustedRun(r, p, es, Any(s)) && Further(p, p1)
    ensures ReadyFor(p1.tasks, |m.layers|) && Within(r, r1, want)
    ensures forall d :: d in want && Had(r, s, m.layers, d) ==> Present(r1, d)
  {
    var n := |m.layers|;
    var asking, q := AskAll(r, p, 0, s);
    var settling, q1;
    settling, r1, q1 := SettleAll(r, r, q, 0, s, want);
    forall d | d in want && Had(r, s, m.layers, d) ensures Present(r1, d) { WantedThere(r, r1, s, q, m.layers, want, d); }
    forall k | 0 <= k < n ensures s.skips(q1.tasks[k].desc) || Present(r1, q1.tasks[k].desc) {
      assert m.layers[k] in m.layers;
      if !s.skips(m.layers[k]) { assert m.layers[k] in Kept(s, m.layers); }
    }
    var finishing;
    finishing, p1 := FinishAll(r1, q1, 0, s);
    PullRunAppend(r, q, settling, finishing, Any(s));
    PullRunAppend(r, p, asking, settling + finishing, Any(s));
    es := asking + (settling + finishing);
  }

  lemma WantedThere(r: Repo, r1: Repo, s: Setting, q: Pull, ls: seq<Descriptor>, want: seq<Descriptor>, d: Descriptor)
    requires |q.tasks| == |ls| + 2 && forall k :: 0 <= k < |ls| ==> q.tasks[k].desc == ls[k]
    requires forall k :: 0 <= k < |ls| ==> Delivered(r, r1, s, q.tasks[k].desc, want)
    requires Keeps(r, r1) && d in want && Had(r, s, ls, d)
    ensures Present(r1, d)
  {
    if !Present(r, d) {
      var j :| j in ls && Brings(r, s, j, d);
      var k :| 0 <= k < |ls| && ls[k] == j;
      assert Delivered(r, r1, s, q.tasks[k].desc, want);
    }
  }

  // ---------------------------------------------------------------- runs that break closure

  ghost predicate AlwaysClosesUnder(r: Repo, s: Setting, p: Pull) {
    forall es :: TrustedRun(r, p, es, Any(s)) && PullRun(r, p, es).Some? ==> Closed(PullRun(r, p, es).value.0)
  }

  /** A task whose turn has come, and whose answer is a manifest that does not rest on what is there. */
  lemma OpenedBy(r: Repo, s: Setting, p: Pull, i: nat) returns (es: seq<PullEvent>)
    requires 2 <= |p.tasks| && i < |p.tasks| && Unstarted(p.tasks[i]) && Gate(p.tasks, i)
    requires !Present(r, p.tasks[i].desc) && !Fine(r, s, p.tasks[i].desc, r.blobs.Keys)
    ensures TrustedRun(r, p, es, Any(s)) && PullRun(r, p, es).Some? && !Closed(PullRun(r, p, es).value.0)
  {
    var body := s.answer(p.tasks[i].desc);
    es := AttemptOnce(r, p, i, body, Any(s));
    NotClosed(PullRun(r, p, es).value.0, body);
  }

  /** A manifest that is not wanted does not come. */
  lemma StillAbsent(r: Repo, r1: Repo, want: seq<Descriptor>, d: Descriptor)
    requires Within(r, r1, want) && d.mediaType.ImageManifest? && !Present(r, d) && d !in want
    ensures !Present(r1, d)
  {
    assert forall x :: x in want && x.mediaType.ImageManifest? && x.digest == d.digest ==> x == d;
    assert d.digest !in NestedDigests(want);
  }

  lemma FineGrows(r: Repo, s: Setting, d: Descriptor, blobs: set<Digest>, more: set<Digest>)
    requires Fine(r, s, d, blobs) && blobs <= more
    ensures Fine(r, s, d, more)
  {
  }

  lemma LayerOpens(r: Repo, s: Setting, repo: string, tag: string, desc: Descriptor, m: Manifest, l: Descriptor) returns (es: seq<PullEvent>)
    requires l in m.layers && !Fine(r, s, l, r.blobs.Keys)
    ensures TrustedRun(r, NewPull(repo, tag, desc, m), es, Any(s)) && PullRun(r, NewPull(repo, tag, desc, m), es).Some?
    ensures !Closed(PullRun(r, NewPull(repo, tag, desc, m), es).value.0)
  {
    var p := NewPull(repo, tag, desc, m);
    NewPullReady(repo, tag, desc, m);
    var i :| 0 <= i < |m.layers| && m.layers[i] == l;
    es := OpenedBy(r, s, p, i);
  }

  lemma ConfigOpens(r: Repo, s: Setting, repo: string, tag: string, desc: Descriptor, m: Manifest) returns (es: seq<PullEvent>)
    requires (forall l :: l in m.layers ==> Fine(r, s, l, r.blobs.Keys)) && AllPass(r, s, m.layers)
    requires !Fine(r, s, m.config, r.blobs.Keys + PlainDigests(Kept(s, m.layers)))
    ensures TrustedRun(r, NewPull(repo, tag, desc, m), es, Any(s)) && PullRun(r, NewPull(repo, tag, desc, m), es).Some?
    ensures !Closed(PullRun(r, NewPull(repo, tag, desc, m), es).value.0)
  {
    var p, n, want := NewPull(repo, tag, desc, m), |m.layers|, Kept(s, m.layers);
    NewPullReady(repo, tag, desc, m);
    var r1, p1;
    es, r1, p1 := PassLayers(r, s, p, m, want);
    if m.config in want { FineGrows(r, s, m.config, r.blobs.Keys, r.blobs.Keys + PlainDigests(want)); }
    StillAbsent(r, r1, want, m.config);
    var more := OpenedBy(r1, s, p1, n);
    PullRunAppend(r, p, es, more, Any(s));
    es := es + more;
  }

  /** Past the config: found, or fetched and stored. */
  lemma PassConfig(r: Repo, r1: Repo, s: Setting, p1: Pull, m: Manifest, want: seq<Descriptor>) returns (es: seq<PullEvent>, r2: Repo, p2: Pull)
    requires ReadyFor(p1.tasks, |m.layers|) && |p1.tasks| == |m.layers| + 2 && p1.tasks[|m.layers|].desc == m.config
    requires Within(r, r1, want) && m.config in want && Had(r, s, Front(m), m.config)
    requires Had(r, s, m.layers, m.config) ==> Present(r1, m.config)
    ensures PullRun(r1, p1, es) == Some((r2, p2)) && TrustedRun(r1, p1, es, Any(s)) && Further(p1, p2)
    ensures ReadyFor(p2.tasks, |m.layers| + 1) && Within(r, r2, want)
  {
    var n, t := |m.layers|, p1.tasks[|m.layers|].(phase := Ready);
    if Present(r1, m.config) {
      es, p2 := FindOnce(r1, p1, n, s);
      r2 := r1;
    } else {
      var body := s.answer(m.config);
      var j :| j in Front(m) && Brings(r, s, j, m.config);
      assert j == m.config;
      es := AttemptOnce(r1, p1, n, body, Any(s));
      r2, p2 := Landed(r1, p1.tag, m.config, body), Put(p1, n, Attempted(r1, t, body));
      LandedWithin(r, r1, s, p1.tag, m.config, m.config, want);
    }
  }

  /** An attempt that finds what it is for. */
  lemma FindOnce(r: Repo, p: Pull, i: nat, s: Setting) returns (es: seq<PullEvent>, p': Pull)
    requires 2 <= |p.tasks| && i < |p.tasks| && Unstarted(p.tasks[i]) && Gate(p.tasks, i) && Present(r, p.tasks[i].desc)
    ensures PullRun(r, p, es) == Some((r, p')) && TrustedRun(r, p, es, Any(s)) && Further(p, p') && p'.tasks[i].phase == Won
    ensures forall k :: 0 <= k < |p.tasks| && k != i ==> p'.tasks[k] == p.tasks[k]
  {
    var t := p.tasks[i].(phase := Ready);
    es := Fetch(r, p, i, t, s.answer(t.desc), [], Any(s));
    StartFirst(r, p, i, es, Any(s));
    es := [Move(i, Start)] + es;
    p' := Put(p, i, Finish(Begin(t, Fetching, false), false, None));
  }

  lemma WholeOpens(r: Repo, s: Setting, repo: string, tag: string, desc: Descriptor, m: Manifest) returns (es: seq<PullEvent>)
    requires (forall l :: l in m.layers ==> Fine(r, s, l, r.blobs.Keys)) && AllPass(r, s, m.layers)
    requires Fine(r, s, m.config, r.blobs.Keys + PlainDigests(Kept(s, m.layers))) && Had(r, s, Front(m), m.config)
    requires !Fine(r, s, desc, r.blobs.Keys + PlainDigests(Kept(s, m.layers) + [m.config]))
    ensures TrustedRun(r, NewPull(repo, tag, desc, m), es, Any(s)) && PullRun(r, NewPull(repo, tag, desc, m), es).Some?
    ensures !Closed(PullRun(r, NewPull(repo, tag, desc, m), es).value.0)
  {
    var p, n, kept := NewPull(repo, tag, desc, m), |m.layers|, Kept(s, m.layers);
    var want := kept + [m.config];
    NewPullReady(repo, tag, desc, m);
    var first, r1, p1 := PassLayers(r, s, p, m, want);
    var second, r2, p2 := PassConfig(r, r1, s, p1, m, want);
    DigestsAppend(kept, [m.config]);
    if desc in kept { FineGrows(r, s, desc, r.blobs.Keys, r.blobs.Keys + PlainDigests(want)); }
    if desc == m.config { FineGrows(r, s, desc, r.blobs.Keys + PlainDigests(kept), r.blobs.Keys + PlainDigests(want)); }
    StillAbsent(r, r2, want, desc);
    var third := OpenedBy(r2, s, p2, n + 1);
    PullRunAppend(r1, p1, second, third, Any(s));
    PullRunAppend(r, p, first, second + third, Any(s));
    es := first + (second + third);
  }

  // ---------------------------------------------------------------- the theorem

  /** Whatever a remote answers, right or wrong, and whichever layers a hook may skip: every run of the pull leaves a
      closed repository closed at every moment if and only if every manifest that may get stored rests on what is
      surely there by then. */
  lemma PullClosesUnderExactly(r: Repo, s: Setting, repo: string, tag: string, desc: Descriptor, m: Manifest)
    requires Closed(r)
    ensures AlwaysClosesUnder(r, s, NewPull(repo, tag, desc, m)) <==> KeepsClosedUnder(r, s, desc, m)
  {
    var p := NewPull(repo, tag, desc, m);
    if KeepsClosedUnder(r, s, desc, m) {
      NewPullUnder(r, s, repo, tag, desc, m);
      forall es | TrustedRun(r, p, es, Any(s)) && PullRun(r, p, es).Some? ensures Closed(PullRun(r, p, es).value.0) {
        ClosedUnderRun(r, r, s, p, es);
      }
    } else if l :| l in m.layers && !Fine(r, s, l, r.blobs.Keys) {
      var es := LayerOpens(r, s, repo, tag, desc, m, l);
    } else if !Fine(r, s, m.config, r.blobs.Keys + PlainDigests(Kept(s, m.layers))) && AllPass(r, s, m.layers) {
      var es := ConfigOpens(r, s, repo, tag, desc, m);
    } else {
      var es := WholeOpens(r, s, repo, tag, desc, m);
    }
  }

  /** The remote answers for the parts of a manifest without nested ones. */
  ghost predicate PartsAnswered(s: Setting, m: Manifest) {
    PlainParts(m) && forall d :: d in Parts(m) ==> Sha256(s.answer(d)) == d.digest
  }

  lemma AnsweredHad(r: Repo, s: Setting, m: Manifest)
    requires PartsAnswered(s, m)
    ensures AllPass(r, s, m.layers) && Had(r, s, Front(m), m.config)
    ensures forall d, blobs :: d in Parts(m) ==> Fine(r, s, d, blobs)
  {
    LayersAreParts(m);
    FrontParts(m);
    forall ds, d | d in ds && d in Parts(m) ensures Had(r, s, ds, d) {
      if !Present(r, d) { assert Brings(r, s, d, d); }
    }
  }

  lemma AnsweredDecides(r: Repo, s: Setting, desc: Descriptor, m: Manifest)
    requires PartsAnswered(s, m)
    ensures KeepsClosedUnder(r, s, desc, m) <==> Fine(r, s, desc, r.blobs.Keys + PlainDigests(Kept(s, m.layers) + [m.config]))
  {
    AnsweredHad(r, s, m);
    LayersAreParts(m);
  }

  /** The parts that may be missing are the layers a hook may skip. */
  lemma MissingAreSkipped(s: Setting, m: Manifest, there: set<Digest>)
    requires PlainParts(m) && PlainDigests(Kept(s, m.layers) + [m.config]) <= there
    ensures References(Doc(m)) <= there <==> forall l :: l in m.layers && s.skips(l) ==> l.digest in there
  {
    var sure := Kept(s, m.layers) + [m.config];
    LayersAreParts(m);
    forall d | d in Parts(m) && (d == m.config || !s.skips(d)) ensures d.digest in there { assert d in sure && d.digest in PlainDigests(sure); }
    if References(Doc(m)) <= there {
      forall l | l in m.layers ensures l.digest in there { assert l.digest in References(Doc(m)); }
    }
  }

  lemma SureAreParts(s: Setting, m: Manifest)
    requires forall l :: l in m.layers ==> !s.skips(l)
    ensures PlainDigests(Kept(s, m.layers) + [m.config]) == PlainDigests(Parts(m))
  {
    LayersAreParts(m);
    assert forall d :: d in Kept(s, m.layers) + [m.config] <==> d in Parts(m);
  }

  /** Which hooks: with a remote that answers rightly, exactly those that skip only layers that are there, or that are
      also a config or a layer no hook may skip. */
  lemma HooksExactly(r: Repo, s: Setting, repo: string, tag: string, desc: Descriptor, m: Manifest)
    requires Closed(r) && PartsAnswered(s, m) && s.answer(desc) == Doc(m) && desc.mediaType.ImageManifest? && desc.digest !in r.manifests
    ensures AlwaysClosesUnder(r, s, NewPull(repo, tag, desc, m)) <==>
            forall l :: l in m.layers && s.skips(l) ==> l.digest in r.blobs || l.digest in PlainDigests(Kept(s, m.layers) + [m.config])
  {
    PullClosesUnderExactly(r, s, repo, tag, desc, m);
    AnsweredDecides(r, s, desc, m);
    MissingAreSkipped(s, m, r.blobs.Keys + PlainDigests(Kept(s, m.layers) + [m.config]));
  }

  /** Which remotes: without skipping, when the parts are answered rightly, exactly those whose answer for the manifest is
      no manifest, or one that refers to nothing but the parts and what is there. */
  lemma RemotesExactly(r: Repo, s: Setting, repo: string, tag: string, desc: Descriptor, m: Manifest)
    requires Closed(r) && PartsAnswered(s, m) && desc.mediaType.ImageManifest? && desc.digest !in r.manifests
    requires forall l :: l in m.layers ==> !s.skips(l)
    ensures AlwaysClosesUnder(r, s, NewPull(repo, tag, desc, m)) <==>
            (s.answer(desc).Doc? ==> References(s.answer(desc)) <= r.blobs.Keys + PlainDigests(Parts(m)))
  {
    PullClosesUnderExactly(r, s, repo, tag, desc, m);
    AnsweredDecides(r, s, desc, m);
    SureAreParts(s, m);
  }
}
