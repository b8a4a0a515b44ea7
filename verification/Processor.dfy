/** `pkg/backend/processor/base.go`: matching the files of a Modelfile and building a layer for each. */
module Processing {
  import opened Options
  import opened Ordering
  import opened Layers
  import opened Scheduling

  // ---------------------------------------------------------------- matching

  datatype Stat = Present | Missing | Denied

  datatype MatchError = NotFound(pattern: string) | Unreadable(pattern: string) | BadGlob(pattern: string)

  /** What the file system answers: the absolute path of a pattern, whether it exists, and what it matches. */
  datatype Files = Files(full: string -> string, stat: string -> Stat, glob: string -> Option<seq<string>>)

  predicate HasMeta(pattern: string) {
    exists c :: c in pattern && c in "*?[]"
  }

  function MatchesOf(fs: Files, pattern: string): Result<seq<string>, MatchError> {
    if !HasMeta(pattern) then
      match fs.stat(fs.full(pattern))
      case Missing => Err(NotFound(pattern))
      case Denied => Err(Unreadable(pattern))
      case Present => Ok([fs.full(pattern)])
    else
      match fs.glob(fs.full(pattern))
      case None => Err(BadGlob(pattern))
      case Some(paths) => Ok(paths)
  }

  function MatchedPaths(fs: Files, patterns: seq<string>): Result<seq<string>, MatchError> {
    if patterns == [] then Ok([])
    else
      match MatchedPaths(fs, patterns[..|patterns| - 1])
      case Err(e) => Err(e)
      case Ok(before) =>
        match MatchesOf(fs, patterns[|patterns| - 1])
        case Err(e) => Err(e)
        case Ok(paths) => Ok(before + paths)
  }

  method MatchPaths(fs: Files, patterns: seq<string>) returns (r: Result<seq<string>, MatchError>)
    ensures r.Err? <==> MatchedPaths(fs, patterns).Err?
    ensures r.Err? ==> r == MatchedPaths(fs, patterns)
    ensures r.Ok? ==> Sorted(Less, r.value) && multiset(r.value) == multiset(MatchedPaths(fs, patterns).value)
  {
    var matchedPaths: seq<string> := [];
    for i := 0 to |patterns|
      invariant MatchedPaths(fs, patterns[..i]) == Ok(matchedPaths)
    {
      assert patterns[..i + 1][..i] == patterns[..i];
      var matches := MatchesOf(fs, patterns[i]);
      if matches.Err? {
        MatchErrorStays(fs, patterns, i + 1);
        return Err(matches.error);
      }
      matchedPaths := matchedPaths + matches.value;
    }
    assert patterns[..|patterns|] == patterns;
    LessOrders();
    matchedPaths := SortSlice(Less, matchedPaths);
    return Ok(matchedPaths);
  }

  lemma {:induction false} MatchErrorStays(fs: Files, patterns: seq<string>, k: nat)
    requires k <= |patterns| && MatchedPaths(fs, patterns[..k]).Err?
    ensures MatchedPaths(fs, patterns) == MatchedPaths(fs, patterns[..k])
    decreases |patterns|
  {
    if k == |patterns| {
      assert patterns[..k] == patterns;
    } else {
      assert patterns[..|patterns| - 1][..k] == patterns[..k];
      MatchErrorStays(fs, patterns[..|patterns| - 1], k);
    }
  }

  /** Matching fails if and only if some pattern does, and otherwise finds what the patterns find one by one. */
  lemma {:induction false} MatchedExactly(fs: Files, patterns: seq<string>, path: string)
    ensures MatchedPaths(fs, patterns).Ok? <==> forall p :: p in patterns ==> MatchesOf(fs, p).Ok?
    ensures MatchedPaths(fs, patterns).Ok? ==>
              (path in MatchedPaths(fs, patterns).value <==> exists p :: p in patterns && path in MatchesOf(fs, p).value)
    decreases |patterns|
  {
    if patterns != [] {
      var before := patterns[..|patterns| - 1];
      assert patterns == before + [patterns[|patterns| - 1]];
      MatchedExactly(fs, before, path);
    }
  }

  /** A pattern without any of the four metacharacters names one file, which must be there; any other finds what the
      file system's matching finds, which may be nothing. */
  lemma LiteralsMustExist(fs: Files, patterns: seq<string>, path: string)
    ensures MatchedPaths(fs, patterns).Ok? <==>
            forall p :: p in patterns ==>
              if '*' in p || '?' in p || '[' in p || ']' in p then fs.glob(fs.full(p)).Some? else fs.stat(fs.full(p)) == Present
    ensures MatchedPaths(fs, patterns).Ok? ==>
              (path in MatchedPaths(fs, patterns).value <==>
               exists p :: p in patterns &&
                 if '*' in p || '?' in p || '[' in p || ']' in p then fs.glob(fs.full(p)).Some? && path in fs.glob(fs.full(p)).value
                 else path == fs.full(p))
  {
    MatchedExactly(fs, patterns, path);
    forall p: string ensures HasMeta(p) <==> '*' in p || '?' in p || '[' in p || ']' in p {
      assert forall c :: c in "*?[]" <==> c == '*' || c == '?' || c == '[' || c == ']';
    }
  }

  // ---------------------------------------------------------------- the workers

  /** A worker: spawned, between attempts after some number of them, finished, out of attempts, or stopped because the
      context was done. The last two have returned an error. */
  datatype Work = Spawned | Trying(attempts: nat) | Done | Exhausted | Stopped

  predicate Returned(w: Work) {
    w.Done? || w.Exhausted? || w.Stopped?
  }

  predicate Erred(works: seq<Work>) {
    Exhausted in works || Stopped in works
  }

  /** `ds[i]` is what `BuildLayer` yields for the path of worker i; `out` is the list the workers append to. */
  datatype Pool = Pool(ds: seq<Layer>, works: seq<Work>, left: bool, byCaller: bool, out: seq<Layer>)

  datatype Move =
    | Cancel
    | Spawn
    | Leave
    | Begin(i: nat)
    | Retry(i: nat)
    | Give(i: nat)
    | Build(i: nat)

  /** The shared context is done once the caller cancels or a worker returns an error. */
  predicate Over(s: Pool) {
    s.byCaller || Erred(s.works)
  }

  function Start(ds: seq<Layer>): Pool {
    Pool(ds, [], false, false, [])
  }

  function Set(s: Pool, i: nat, w: Work): Pool
    requires i < |s.works|
  {
    s.(works := s.works[i := w])
  }

  /** `Spawn` and `Leave` are the loop's turns. A spawned worker gives up if the context is done and else makes its
      first attempt. Attempt `Retry` fails, and the sixth failure is final; `Give` sees the context done between
      attempts; `Build` succeeds and appends. */
  function Step(s: Pool, m: Move): Option<Pool> {
    match m
    case Cancel => if s.byCaller then None else Some(s.(byCaller := true))
    case Spawn =>
      if s.left || |s.works| == |s.ds| || Over(s) then None else Some(s.(works := s.works + [Spawned]))
    case Leave => if s.left || |s.works| == |s.ds| || !Over(s) then None else Some(s.(left := true))
    case Begin(i) =>
      if i < |s.works| && s.works[i] == Spawned && !Over(s) then Some(Set(s, i, Trying(0))) else None
    case Retry(i) =>
      if i < |s.works| && s.works[i].Trying? then
        var n := s.works[i].attempts + 1;
        Some(Set(s, i, if n < ATTEMPTS then Trying(n) else Exhausted))
      else None
    case Give(i) =>
      if i < |s.works| && Over(s) && (s.works[i] == Spawned || s.works[i].Trying?) then Some(Set(s, i, Stopped)) else None
    case Build(i) =>
      if i < |s.works| <= |s.ds| && s.works[i].Trying? then Some(Set(s, i, Done).(out := s.out + [s.ds[i]])) else None
  }

  function Run(s: Pool, ms: seq<Move>): Option<Pool>
    decreases |ms|
  {
    if ms == [] then Some(s)
    else
      match Step(s, ms[0])
      case None => None
      case Some(s1) => Run(s1, ms[1..])
  }

  /** `eg.Wait` returns: the loop is over and every worker has returned. */
  predicate Finished(s: Pool) {
    (s.left || |s.works| == |s.ds|) && forall w :: w in s.works ==> Returned(w)
  }

  /** What `Process` returns for the list it sorted; `None` is an error. */
  ghost predicate Returns(s: Pool, r: Option<seq<Layer>>) {
    if Erred(s.works) then r == None
    else r.Some? && Sorted(PathLess, r.value) && multiset(r.value) == multiset(s.out)
  }

  // ---------------------------------------------------------------- what the list holds

  function Part(w: Work, d: Layer): multiset<Layer> {
    if w == Done then multiset{d} else multiset{}
  }

  /** The layers of the workers that are done. */
  function Yield(works: seq<Work>, ds: seq<Layer>): multiset<Layer>
    requires |works| <= |ds|
    decreases |works|
  {
    if works == [] then multiset{} else Yield(works[..|works| - 1], ds) + Part(works[|works| - 1], ds[|works| - 1])
  }

  lemma Swapped(a: multiset<Layer>, b: multiset<Layer>, c: multiset<Layer>)
    ensures a + b + c == a + c + b && a + multiset{} == a
  {
  }

  lemma YieldLast(works: seq<Work>, ds: seq<Layer>, k: nat)
    requires |works| == k + 1 <= |ds|
    ensures Yield(works, ds) == Yield(works[..k], ds) + Part(works[k], ds[k])
  {
  }

  ghost predicate Differs(works: seq<Work>, now: seq<Work>, i: nat) {
    i < |works| == |now| && forall j :: 0 <= j < |works| && j != i ==> now[j] == works[j]
  }

  lemma {:induction false} YieldChanged(works: seq<Work>, now: seq<Work>, ds: seq<Layer>, i: nat)
    requires Differs(works, now, i) && |works| <= |ds| && works[i] != Done
    ensures Yield(now, ds) == Yield(works, ds) + Part(now[i], ds[i])
    decreases |works|
  {
    var k := |works| - 1;
    YieldLast(works, ds, k);
    YieldLast(now, ds, k);
    if i < k {
      YieldChanged(works[..k], now[..k], ds, i);
      Swapped(Yield(works[..k], ds), Part(now[i], ds[i]), Part(works[k], ds[k]));
    } else {
      assert now[..k] == works[..k];
      Swapped(Yield(works[..k], ds), Part(now[k], ds[k]), multiset{});
    }
  }

  lemma YieldSet(works: seq<Work>, ds: seq<Layer>, i: nat, w: Work)
    requires i < |works| <= |ds| && works[i] != Done
    ensures Yield(works[i := w], ds) == Yield(works, ds) + Part(w, ds[i])
  {
    YieldChanged(works, works[i := w], ds, i);
  }

  lemma {:induction false} YieldAll(works: seq<Work>, ds: seq<Layer>)
    requires |works| <= |ds| && forall i :: 0 <= i < |works| ==> works[i] == Done
    ensures Yield(works, ds) == multiset(ds[..|works|])
    decreases |works|
  {
    if works != [] {
      var k := |works| - 1;
      YieldAll(works[..k], ds);
      assert ds[..k + 1] == ds[..k] + [ds[k]];
    }
  }

  ghost predicate Inv(s: Pool) {
    && |s.works| <= |s.ds|
    && multiset(s.out) == Yield(s.works, s.ds)
    && (s.left ==> Over(s))
    && (Stopped in s.works ==> s.byCaller || Exhausted in s.works)
  }

  /** A worker that has not returned moves on; if it is done, its descriptor is appended. */
  lemma WorkerKeeps(s: Pool, i: nat, w: Work)
    requires Inv(s) && i < |s.works| && !Returned(s.works[i]) && (w == Stopped ==> Over(s))
    ensures Inv(Set(s, i, w).(out := if w == Done then s.out + [s.ds[i]] else s.out))
  {
    YieldSet(s.works, s.ds, i, w);
    FailureStays(s.works, i, w, Exhausted);
    FailureStays(s.works, i, w, Stopped);
    if w != Stopped && Stopped in s.works[i := w] {
      var k :| 0 <= k < |s.works| && s.works[i := w][k] == Stopped;
      assert s.works[k] == Stopped;
    }
  }

  lemma SpawnKeeps(s: Pool)
    requires Inv(s) && |s.works| < |s.ds|
    ensures Inv(s.(works := s.works + [Spawned]))
  {
    var now := s.works + [Spawned];
    assert now[..|s.works|] == s.works;
    YieldLast(now, s.ds, |s.works|);
    Swapped(Yield(s.works, s.ds), multiset{}, multiset{});
    assert forall w :: w in now <==> w in s.works || w == Spawned;
  }

  lemma WorkerMoveKeeps(s: Pool, m: Move, i: nat)
    requires Inv(s) && m in {Begin(i), Retry(i), Give(i), Build(i)} && Step(s, m).Some?
    ensures Inv(Step(s, m).value) && Step(s, m).value.ds == s.ds
  {
    var w := Step(s, m).value.works[i];
    assert Step(s, m).value == Set(s, i, w).(out := if w == Done then s.out + [s.ds[i]] else s.out);
    WorkerKeeps(s, i, w);
  }

  lemma StepKeeps(s: Pool, m: Move)
    requires Inv(s) && Step(s, m).Some?
    ensures Inv(Step(s, m).value) && Step(s, m).value.ds == s.ds
  {
    match m
    case Cancel =>
    case Leave =>
    case Spawn => SpawnKeeps(s);
    case Begin(i) => WorkerMoveKeeps(s, m, i);
    case Retry(i) => WorkerMoveKeeps(s, m, i);
    case Give(i) => WorkerMoveKeeps(s, m, i);
    case Build(i) => WorkerMoveKeeps(s, m, i);
  }

  lemma FailureStays(works: seq<Work>, i: nat, w: Work, failure: Work)
    requires i < |works| && works[i] != failure
    ensures failure in works ==> failure in works[i := w]
  {
    if k :| 0 <= k < |works| && works[k] == failure { assert works[i := w][k] == failure; }
  }

  lemma {:induction false} RunKeeps(s: Pool, ms: seq<Move>)
    requires Inv(s) && Run(s, ms).Some?
    ensures Inv(Run(s, ms).value) && Run(s, ms).value.ds == s.ds
    decreases |ms|
  {
    if ms != [] {
      StepKeeps(s, ms[0]);
      RunKeeps(Step(s, ms[0]).value, ms[1..]);
    }
  }

  /** Descriptors for one filepath are one descriptor. */
  ghost predicate PathsTell(ds: seq<Layer>) {
    forall x, y :: x in ds && y in ds && Filepath(x) == Filepath(y) ==> x == y
  }

  // ---------------------------------------------------------------- when it fails

  /** The failed attempts of a worker in a run. */
  function Failures(ms: seq<Move>, i: nat): nat {
    if ms == [] then 0 else (if ms[0] == Retry(i) then 1 else 0) + Failures(ms[1..], i)
  }

  predicate Closed(s: Pool, i: nat) {
    i < |s.works| && Returned(s.works[i])
  }

  function Spent(s: Pool, i: nat): nat {
    if i < |s.works| && s.works[i].Trying? then s.works[i].attempts else 0
  }

  predicate Out(s: Pool, i: nat) {
    i < |s.works| && s.works[i] == Exhausted
  }

  /** A worker makes at most six attempts, and it is out of them when it has made six in vain. */
  lemma {:induction false} FailuresTell(s: Pool, ms: seq<Move>, i: nat)
    requires Run(s, ms).Some? && Spent(s, i) < ATTEMPTS
    ensures Closed(s, i) ==> Failures(ms, i) == 0 && (Out(Run(s, ms).value, i) <==> Out(s, i))
    ensures !Closed(s, i) ==> Spent(s, i) + Failures(ms, i) <= ATTEMPTS
    ensures !Closed(s, i) ==> (Spent(s, i) + Failures(ms, i) == ATTEMPTS <==> Out(Run(s, ms).value, i))
    decreases |ms|
  {
    if ms != [] { FailuresTell(Step(s, ms[0]).value, ms[1..], i); }
  }

  lemma {:induction false} CallerTells(s: Pool, ms: seq<Move>)
    requires Run(s, ms).Some?
    ensures Run(s, ms).value.byCaller <==> s.byCaller || Cancel in ms
    decreases |ms|
  {
    if ms != [] {
      CallerTells(Step(s, ms[0]).value, ms[1..]);
      assert ms == [ms[0]] + ms[1..];
    }
  }

  /** Left alone by the caller, some worker errs if and only if one makes six attempts in vain. */
  lemma {:induction false} ErrsOnSixFailures(ds: seq<Layer>, ms: seq<Move>)
    requires Run(Start(ds), ms).Some? && Cancel !in ms
    ensures Erred(Run(Start(ds), ms).value.works) <==> exists i :: Failures(ms, i) == ATTEMPTS
  {
    var s := Run(Start(ds), ms).value;
    RunKeeps(Start(ds), ms);
    CallerTells(Start(ds), ms);
    if Erred(s.works) {
      var i :| 0 <= i < |s.works| && s.works[i] == Exhausted;
      FailuresTell(Start(ds), ms, i);
    }
    if i: nat :| Failures(ms, i) == ATTEMPTS { FailuresTell(Start(ds), ms, i); }
  }

  lemma {:induction false} OneListElse(ds: seq<Layer>, ms: seq<Move>, xs: seq<Layer>)
    requires PathsTell(ds) && Run(Start(ds), ms).Some? && Finished(Run(Start(ds), ms).value) && Cancel !in ms
    requires !Erred(Run(Start(ds), ms).value.works) && Returns(Run(Start(ds), ms).value, Some(xs))
    ensures xs == StableSort(PathLess, ds) && multiset(xs) == multiset(ds)
  {
    RunKeeps(Start(ds), ms);
    CallerTells(Start(ds), ms);
    FullWhenSpawned(Run(Start(ds), ms).value);
    OneSortedList(ds, xs);
  }

  /** For every schedule and every pattern of failing attempts, unless the caller cancels: `Process` fails if and only
      if some file failed six attempts, and else it returns one and the same list, a descriptor for each matched
      path, sorted by filepath. */
  lemma {:induction false} ProcessDeterministic(ds: seq<Layer>, ms: seq<Move>, r: Option<seq<Layer>>)
    requires PathsTell(ds) && Run(Start(ds), ms).Some? && Finished(Run(Start(ds), ms).value) && Returns(Run(Start(ds), ms).value, r)
    requires Cancel !in ms
    ensures r.None? <==> exists i :: Failures(ms, i) == 6
    ensures r.Some? ==> r.value == StableSort(PathLess, ds) && multiset(r.value) == multiset(ds)
  {
    ErrsOnSixFailures(ds, ms);
    if r.Some? { OneListElse(ds, ms, r.value); }
  }

  /** The list is in the order of its paths. */
  lemma ProcessInOrder(s: Pool, ls: seq<Layer>, i: nat, j: nat, a: string, b: string)
    requires Returns(s, Some(ls)) && i < j < |ls| && IsPathOf(a, ls[i]) && IsPathOf(b, ls[j])
    ensures a == b || Earlier(a, b)
  {
    PathsInOrder(ls, i, j, a, b);
  }

  lemma {:induction false} FailureLasts(s: Pool, ms: seq<Move>)
    requires Exhausted in s.works && Run(s, ms).Some?
    ensures Exhausted in Run(s, ms).value.works
    decreases |ms|
  {
    if ms != [] {
      var s' := Step(s, ms[0]).value;
      var k :| 0 <= k < |s.works| && s.works[k] == Exhausted;
      assert s'.works[k] == Exhausted;
      FailureLasts(s', ms[1..]);
    }
  }

  /** A worker that fails its sixth attempt makes the whole call fail, whatever the others do after it. */
  lemma SixthFailureIsError(s: Pool, i: nat, ms: seq<Move>, r: Option<seq<Layer>>)
    requires i < |s.works| && s.works[i] == Trying(ATTEMPTS - 1)
    requires Step(s, Retry(i)).Some? && Run(Step(s, Retry(i)).value, ms).Some?
    requires Finished(Run(Step(s, Retry(i)).value, ms).value) && Returns(Run(Step(s, Retry(i)).value, ms).value, r)
    ensures r.None?
  {
    var s' := Step(s, Retry(i)).value;
    assert s'.works[i] == Exhausted;
    FailureLasts(s', ms);
  }

  lemma FullWhenSpawned(s: Pool)
    requires Inv(s) && Finished(s) && !Erred(s.works) && |s.works| == |s.ds|
    ensures multiset(s.out) == multiset(s.ds)
  {
    forall i | 0 <= i < |s.works| ensures s.works[i] == Done { assert s.works[i] in s.works; }
    YieldAll(s.works, s.ds);
    assert s.ds[..|s.works|] == s.ds;
  }

  lemma OneSortedList(ds: seq<Layer>, xs: seq<Layer>)
    requires PathsTell(ds) && Sorted(PathLess, xs) && multiset(xs) == multiset(ds)
    ensures xs == StableSort(PathLess, ds)
  {
    LayerLessOrders();
    StableSortSorts(PathLess, ds);
    forall x | x in xs ensures x in ds { assert x in multiset(xs); assert x in multiset(ds); }
    forall x, y | x in xs && y in xs && !PathLess(x, y) && !PathLess(y, x) ensures x == y { LessTotal(Filepath(x), Filepath(y)); }
    SortedUnique(PathLess, xs, StableSort(PathLess, ds));
  }

  lemma {:induction false} YieldSize(works: seq<Work>, ds: seq<Layer>)
    requires |works| <= |ds|
    ensures |Yield(works, ds)| <= |works|
    decreases |works|
  {
    if works != [] { YieldSize(works[..|works| - 1], ds); }
  }

  /** When no worker reports an error the list is complete if and only if the loop spawned every worker. It may
      have stopped before, but only because the caller cancelled, and then nothing says so. */
  lemma {:induction false} PartialListExactly(ds: seq<Layer>, ms: seq<Move>, r: Option<seq<Layer>>)
    requires Run(Start(ds), ms).Some? && Finished(Run(Start(ds), ms).value) && Returns(Run(Start(ds), ms).value, r) && r.Some?
    ensures multiset(r.value) == multiset(ds) <==> |Run(Start(ds), ms).value.works| == |ds|
    ensures |Run(Start(ds), ms).value.works| < |ds| ==> Run(Start(ds), ms).value.byCaller && |r.value| < |ds|
  {
    var s := Run(Start(ds), ms).value;
    RunKeeps(Start(ds), ms);
    YieldSize(s.works, ds);
    assert |r.value| == |multiset(r.value)| == |multiset(s.out)|;
    assert |ds| == |multiset(ds)|;
    if |s.works| == |ds| { FullWhenSpawned(s); }
  }

  /** A caller that cancels at once gets an empty list and no error, whatever there was to build. */
  lemma CancelledProcessLooksEmpty(ds: seq<Layer>)
    requires ds != []
    ensures Run(Start(ds), [Cancel, Leave]).Some? && Finished(Run(Start(ds), [Cancel, Leave]).value)
    ensures Returns(Run(Start(ds), [Cancel, Leave]).value, Some([]))
  {
    var s1 := Step(Start(ds), Cancel).value;
    assert [Cancel, Leave][1..] == [Leave] && [Leave][1..] == [];
    assert Run(s1, [Leave]) == Run(Step(s1, Leave).value, []);
  }

  // ---------------------------------------------------------------- every run ends

  function Fuel(w: Work): nat {
    match w
    case Spawned => ATTEMPTS + 1
    case Trying(n) => if n < ATTEMPTS then ATTEMPTS - n else 1
    case Done => 0
    case Exhausted => 0
    case Stopped => 0
  }

  function WorkFuel(works: seq<Work>): nat
    decreases |works|
  {
    if works == [] then 0 else WorkFuel(works[..|works| - 1]) + Fuel(works[|works| - 1])
  }

  function PoolFuel(s: Pool): int {
    (|s.ds| - |s.works|) * (ATTEMPTS + 2) + WorkFuel(s.works) + (if s.left then 0 else 1) + (if s.byCaller then 0 else 1)
  }

  lemma {:induction false} WorkFuelSet(works: seq<Work>, i: nat, w: Work)
    requires i < |works|
    ensures WorkFuel(works[i := w]) + Fuel(works[i]) == WorkFuel(works) + Fuel(w)
    decreases |works|
  {
    var k := |works| - 1;
    if i < k {
      WorkFuelSet(works[..k], i, w);
      assert works[i := w][..k] == works[..k][i := w];
    } else {
      assert works[i := w][..k] == works[..k];
    }
  }

  lemma WorkerSpends(s: Pool, i: nat, w: Work, out: seq<Layer>)
    requires |s.works| <= |s.ds| && i < |s.works| && Fuel(w) < Fuel(s.works[i])
    ensures 0 <= PoolFuel(Set(s, i, w).(out := out)) < PoolFuel(s)
  {
    WorkFuelSet(s.works, i, w);
    assert (|s.ds| - |s.works|) * (ATTEMPTS + 2) >= 0;
  }

  lemma FuelDrops(s: Pool, m: Move)
    requires Inv(s) && Step(s, m).Some?
    ensures 0 <= PoolFuel(Step(s, m).value) < PoolFuel(s)
  {
    var s' := Step(s, m).value;
    assert (|s'.ds| - |s'.works|) * (ATTEMPTS + 2) >= 0 by { StepKeeps(s, m); }
    match m
    case Cancel =>
    case Leave =>
    case Spawn => assert (s.works + [Spawned])[..|s.works|] == s.works;
    case Begin(i) => WorkerSpends(s, i, s'.works[i], s.out);
    case Retry(i) => WorkerSpends(s, i, s'.works[i], s.out);
    case Give(i) => WorkerSpends(s, i, s'.works[i], s.out);
    case Build(i) => WorkerSpends(s, i, Done, s'.out);
  }

  lemma {:induction false} RunSpends(s: Pool, ms: seq<Move>)
    requires Inv(s) && Run(s, ms).Some?
    ensures |ms| + PoolFuel(Run(s, ms).value) <= PoolFuel(s) && 0 <= PoolFuel(Run(s, ms).value)
    decreases |ms|
  {
    if ms != [] {
      FuelDrops(s, ms[0]);
      StepKeeps(s, ms[0]);
      RunSpends(Step(s, ms[0]).value, ms[1..]);
    } else {
      assert (|s.ds| - |s.works|) * (ATTEMPTS + 2) >= 0;
    }
  }

  /** Building n layers takes at most 8n + 2 moves, and as long as `Process` has not returned there is a move. */
  lemma {:induction false} ProcessEnds(ds: seq<Layer>, ms: seq<Move>)
    requires Run(Start(ds), ms).Some?
    ensures |ms| <= 8 * |ds| + 2
    ensures !Finished(Run(Start(ds), ms).value) ==> exists m :: Step(Run(Start(ds), ms).value, m).Some?
  {
    RunSpends(Start(ds), ms);
    RunKeeps(Start(ds), ms);
    var s := Run(Start(ds), ms).value;
    if !Finished(s) {
      if s.left || |s.works| == |s.ds| {
        var w :| w in s.works && !Returned(w);
        var i :| 0 <= i < |s.works| && s.works[i] == w;
        if Over(s) { assert Step(s, Give(i)).Some?; }
        else if w == Spawned { assert Step(s, Begin(i)).Some?; }
        else { assert Step(s, Build(i)).Some?; }
      } else {
        if Over(s) { assert Step(s, Leave).Some?; } else { assert Step(s, Spawn).Some?; }
      }
    }
  }
}
