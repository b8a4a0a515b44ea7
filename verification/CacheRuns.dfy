/** Many cache instances over one locked file, against a plain map with an age limit. */
module CacheRuns {
  import opened Options
  import opened Caching

  datatype Call = Getting(path: string) | Putting(item: Item)

  /** Where a call is: waiting for the lock, holding it, with the items read, or with the items to write. */
  datatype Phase =
    | Idle
    | Waiting(call: Call)
    | Holding(call: Call)
    | Loaded(call: Call, items: map<string, Item>)
    | Ready(item: Item, items: map<string, Item>)

  /** A put that was written, one whose writing was cut short, or a get that was answered at a time. */
  datatype Op = DidPut(item: Item) | WasCut | DidGet(path: string, at: int, result: Lookup)

  /** What was served so far. */
  datatype History = Start | Then(before: History, op: Op)

  /** `instance[i]` is the cache object call slot i goes through; the lock belongs to an object. */
  datatype World = World(file: CacheFile, lock: Option<nat>, clock: int, calls: seq<Phase>, instance: seq<nat>, log: History)

  datatype Move =
    | Tick(span: nat)
    | Begin(i: nat, call: Call)
    | Acquire(i: nat)
    | Load(i: nat)
    | Reply(i: nat)
    | Update(i: nat)
    | Write(i: nat, listing: seq<Item>)
    | Cut(i: nat, empty: bool)
    | Abort(i: nat)

  ghost function Set(w: World, i: nat, p: Phase): World
    requires i < |w.calls|
  {
    w.(calls := w.calls[i := p])
  }

  ghost predicate Locks(p: Phase) {
    p.Holding? || p.Loaded? || p.Ready?
  }

  ghost function Free(w: World, i: nat): World
    requires i < |w.calls|
  {
    Set(w, i, Idle).(lock := None)
  }

  /** `TryLock` of an object that already holds the lock succeeds at once. Time may pass anywhere, a call may end
      with an error anywhere before it writes, and the list is written in any order. */
  ghost function Step(w: World, m: Move): Option<World> {
    if m.Tick? then Some(w.(clock := w.clock + m.span))
    else if !(m.i < |w.calls| == |w.instance|) then None
    else
      var p := w.calls[m.i];
      match m
      case Tick(_) => None
      case Begin(i, call) => if p.Idle? then Some(Set(w, i, Waiting(call))) else None
      case Acquire(i) =>
        if p.Waiting? && (w.lock.None? || w.lock.value == w.instance[i]) then Some(Set(w, i, Holding(p.call)).(lock := Some(w.instance[i])))
        else None
      case Load(i) =>
        if p.Holding? && Readable(w.file) then Some(Set(w, i, Loaded(p.call, Stored(w.file)))) else None
      case Reply(i) =>
        if p.Loaded? && p.call.Getting? then
          Some(Free(w, i).(log := Then(w.log, DidGet(p.call.path, w.clock, Answer(p.items, p.call.path, w.clock)))))
        else None
      case Update(i) =>
        if p.Loaded? && p.call.Putting? then
          Some(Set(w, i, Ready(p.call.item, Pruned(p.items[p.call.item.path := p.call.item], w.clock))))
        else None
      case Write(i, listing) =>
        if p.Ready? && Lists(listing, p.items) then Some(Free(w, i).(file := Items(listing), log := Then(w.log, DidPut(p.item)))) else None
      case Cut(i, empty) =>
        if p.Ready? then Some(Free(w, i).(file := if empty then Empty else Corrupt, log := Then(w.log, WasCut))) else None
      case Abort(i) =>
        if p.Waiting? then Some(Set(w, i, Idle)) else if Locks(p) then Some(Free(w, i)) else None
  }

  ghost function Run(w: World, ms: seq<Move>): Option<World>
    decreases |ms|
  {
    if ms == [] then Some(w)
    else
      match Step(w, ms[0])
      case None => None
      case Some(w1) => Run(w1, ms[1..])
  }

  // ---------------------------------------------------------------- the plain map

  /** The last put for each path; a cut forgets all. */
  ghost function Plain(log: History): map<string, Item> {
    match log
    case Start => map[]
    case Then(before, op) => if op.DidPut? then Plain(before)[op.item.path := op.item] else if op.WasCut? then map[] else Plain(before)
  }

  /** Every get was answered as the plain map would have answered it then. */
  ghost predicate Legal(log: History) {
    match log
    case Start => true
    case Then(before, op) => Legal(before) && (op.DidGet? ==> op.result == Answer(Plain(before), op.path, op.at))
  }

  /** The item put last for a path since the last cut. */
  ghost function LastPut(log: History, path: string): Option<Item> {
    match log
    case Start => None
    case Then(before, op) =>
      match op
      case DidPut(item) => if item.path == path then Some(item) else LastPut(before, path)
      case WasCut => None
      case DidGet(_, _, _) => LastPut(before, path)
  }

  lemma {:induction false} PlainIsLastPut(log: History, path: string)
    ensures path in Plain(log) <==> LastPut(log, path).Some?
    ensures path in Plain(log) ==> Plain(log)[path] == LastPut(log, path).value
  {
    match log
    case Start =>
    case Then(before, op) => PlainIsLastPut(before, path);
  }

  /** In a legal history a get finds an item if and only if it is the one put last for the path and not more than a day
      of 24 hours has gone by since it was created; else it is told "not found". */
  lemma GetFindsExactly(before: History, path: string, at: int, result: Lookup, item: Item)
    requires Legal(Then(before, DidGet(path, at, result)))
    ensures result == Found(item) <==> LastPut(before, path) == Some(item) && at - item.createdAt <= 24 * 3600 * 1_000_000_000
    ensures result.Found? || result == NotFound
  {
    PlainIsLastPut(before, path);
  }

  /** `m` forgets nothing of `full` but what has expired. */
  ghost predicate Follows(m: map<string, Item>, full: map<string, Item>, now: int) {
    && (forall p :: p in m ==> p in full && m[p] == full[p])
    && (forall p :: p in full && p !in m ==> Expired(full[p], now))
  }

  /** Eager pruning is never observable. */
  lemma FollowsAnswers(m: map<string, Item>, full: map<string, Item>, now: int, path: string)
    requires Follows(m, full, now)
    ensures Answer(m, path, now) == Answer(full, path, now)
  {
  }

  lemma FollowsPruned(m: map<string, Item>, full: map<string, Item>, now: int, item: Item)
    requires Follows(m, full, now)
    ensures Follows(Pruned(m[item.path := item], now), full[item.path := item], now)
  {
  }

  lemma FollowsLater(m: map<string, Item>, full: map<string, Item>, now: int, later: int)
    requires Follows(m, full, now) && now <= later
    ensures Follows(m, full, later)
  {
  }

  // ---------------------------------------------------------------- what every run keeps

  /** Each call slot has its own cache object. */
  ghost predicate OneCallEach(w: World) {
    |w.calls| == |w.instance| && forall i, j :: 0 <= i < j < |w.instance| ==> w.instance[i] != w.instance[j]
  }

  ghost predicate FileOk(w: World) {
    (w.file.Items? ==> NoRepeats(w.file.items)) && Follows(Stored(w.file), Plain(w.log), w.clock)
  }

  /** What the call holding the lock has in hand. */
  ghost predicate CallOk(w: World, i: nat)
    requires i < |w.calls| == |w.instance|
  {
    var p := w.calls[i];
    && (Locks(p) ==> w.lock == Some(w.instance[i]))
    && (p.Loaded? || p.Ready? ==> Readable(w.file))
    && (p.Loaded? ==> p.items == Stored(w.file))
    && (p.Ready? ==> Follows(p.items, Plain(w.log)[p.item.path := p.item], w.clock))
  }

  ghost predicate CallsOk(w: World)
    requires |w.calls| == |w.instance|
  {
    forall i :: 0 <= i < |w.calls| ==> CallOk(w, i)
  }

  ghost predicate Inv(w: World) {
    OneCallEach(w) && FileOk(w) && Legal(w.log) && CallsOk(w)
  }

  /** Whoever else is at it does not hold the lock. */
  lemma Alone(w: World, i: nat, j: nat)
    requires Inv(w) && i < |w.calls| && j < |w.calls| && i != j && w.lock == Some(w.instance[i])
    ensures !Locks(w.calls[j])
  {
    assert CallOk(w, j);
    if i < j { assert w.instance[i] != w.instance[j]; } else { assert w.instance[j] != w.instance[i]; }
  }

  /** A move of one call that others cannot notice, since none of them holds the lock. */
  lemma OthersOk(w: World, w': World, i: nat)
    requires Inv(w) && i < |w.calls| && w'.instance == w.instance && |w'.calls| == |w.calls|
    requires forall j :: 0 <= j < |w.calls| && j != i ==> w'.calls[j] == w.calls[j]
    requires w.lock == None || w.lock == Some(w.instance[i])
    requires CallOk(w', i)
    ensures CallsOk(w')
  {
    forall j | 0 <= j < |w'.calls| ensures CallOk(w', j) {
      if j != i {
        assert CallOk(w, j);
        if w.lock.Some? { Alone(w, i, j); }
      }
    }
  }

  lemma TickKeeps(w: World, span: nat)
    requires Inv(w)
    ensures Inv(Step(w, Tick(span)).value)
  {
    var w' := Step(w, Tick(span)).value;
    FollowsLater(Stored(w.file), Plain(w.log), w.clock, w'.clock);
    forall i | 0 <= i < |w'.calls| ensures CallOk(w', i) {
      assert CallOk(w, i);
      var p := w.calls[i];
      if p.Ready? { FollowsLater(p.items, Plain(w.log)[p.item.path := p.item], w.clock, w'.clock); }
    }
  }

  /** A waiting or idle call changes nothing but itself. */
  lemma QuietKeeps(w: World, i: nat, p: Phase)
    requires Inv(w) && i < |w.calls| && !Locks(p)
    ensures Inv(Set(w, i, p))
  {
    forall j | 0 <= j < |w.calls| ensures CallOk(Set(w, i, p), j) { assert CallOk(w, j); }
  }

  lemma ReplyKeeps(w: World, i: nat)
    requires Inv(w) && Step(w, Reply(i)).Some?
    ensures Inv(Step(w, Reply(i)).value)
  {
    var w', p := Step(w, Reply(i)).value, w.calls[i];
    assert CallOk(w, i);
    FollowsAnswers(p.items, Plain(w.log), w.clock, p.call.path);
    OthersOk(w, w', i);
  }

  lemma WriteKeeps(w: World, i: nat, listing: seq<Item>)
    requires Inv(w) && Step(w, Write(i, listing)).Some?
    ensures Inv(Step(w, Write(i, listing)).value)
  {
    var w', p := Step(w, Write(i, listing)).value, w.calls[i];
    assert CallOk(w, i);
    OthersOk(w, w', i);
  }

  lemma CutKeeps(w: World, i: nat, empty: bool)
    requires Inv(w) && Step(w, Cut(i, empty)).Some?
    ensures Inv(Step(w, Cut(i, empty)).value)
  {
    var w' := Step(w, Cut(i, empty)).value;
    assert CallOk(w, i);
    OthersOk(w, w', i);
  }

  lemma LockedKeeps(w: World, m: Move)
    requires Inv(w) && Step(w, m).Some? && (m.Acquire? || m.Load? || m.Update? || m.Abort?)
    ensures Inv(Step(w, m).value)
  {
    var w', p := Step(w, m).value, w.calls[m.i];
    assert CallOk(w, m.i);
    if p.Waiting? && m.Abort? {
      QuietKeeps(w, m.i, Idle);
    } else {
      if m.Update? { FollowsPruned(p.items, Plain(w.log), w.clock, p.call.item); }
      OthersOk(w, w', m.i);
    }
  }

  lemma StepKeeps(w: World, m: Move)
    requires Inv(w) && Step(w, m).Some?
    ensures Inv(Step(w, m).value)
  {
    match m
    case Tick(span) => TickKeeps(w, span);
    case Begin(i, call) => QuietKeeps(w, i, Waiting(call));
    case Reply(i) => ReplyKeeps(w, i);
    case Write(i, listing) => WriteKeeps(w, i, listing);
    case Cut(i, empty) => CutKeeps(w, i, empty);
    case Acquire(_) => LockedKeeps(w, m);
    case Load(_) => LockedKeeps(w, m);
    case Update(_) => LockedKeeps(w, m);
    case Abort(_) => LockedKeeps(w, m);
  }

  lemma {:induction false} RunKeeps(w: World, ms: seq<Move>)
    requires Inv(w) && Run(w, ms).Some?
    ensures Inv(Run(w, ms).value)
    decreases |ms|
  {
    if ms != [] {
      StepKeeps(w, ms[0]);
      RunKeeps(Step(w, ms[0]).value, ms[1..]);
    }
  }

  /** No file, or the empty one the lock creates, and `n` idle calls. */
  ghost predicate Fresh(w: World) {
    && (w.file.Missing? || w.file.Empty?) && w.lock.None? && w.log == Start
    && |w.calls| == |w.instance| && forall i :: 0 <= i < |w.calls| ==> w.calls[i].Idle?
  }

  /** Each answered get is the last put for its path if its age is at most the limit and "not found" otherwise, in
      the order in which the calls were served; the stored list repeats no path and forgets only what has expired. */
  ghost predicate Refines(w: World) {
    Legal(w.log) && FileOk(w)
  }

  /** With one call in flight for each cache object and a clock that does not go back, any interleaving refines
      the plain map. */
  lemma CacheRefinesPlainMap(w: World, ms: seq<Move>)
    requires Fresh(w) && OneCallEach(w) && Run(w, ms).Some?
    ensures Refines(Run(w, ms).value)
  {
    RunKeeps(w, ms);
  }

  // ---------------------------------------------------------------- a file cut short

  ghost predicate NoneInside(w: World) {
    forall p :: p in w.calls ==> !p.Loaded? && !p.Ready?
  }

  lemma {:induction false} StaysCorrupt(w: World, ms: seq<Move>)
    requires w.file.Corrupt? && NoneInside(w) && Run(w, ms).Some?
    ensures Run(w, ms).value.file.Corrupt? && Run(w, ms).value.log == w.log
    decreases |ms|
  {
    if ms != [] {
      var w1 := Step(w, ms[0]).value;
      assert NoneInside(w1);
      StaysCorrupt(w1, ms[1..]);
    }
  }

  /** Once a cut has left the file corrupt it stays so whatever is called, and nobody is served any more. */
  lemma CorruptForGood(w: World, before: seq<Move>, later: seq<Move>)
    requires Fresh(w) && OneCallEach(w) && Run(w, before).Some? && Run(w, before).value.file.Corrupt?
    requires Run(Run(w, before).value, later).Some?
    ensures Run(Run(w, before).value, later).value.file.Corrupt?
    ensures Run(Run(w, before).value, later).value.log == Run(w, before).value.log
  {
    RunKeeps(w, before);
    var w1 := Run(w, before).value;
    forall p | p in w1.calls ensures !p.Loaded? && !p.Ready? {
      var i :| 0 <= i < |w1.calls| && w1.calls[i] == p;
      assert CallOk(w1, i);
    }
    StaysCorrupt(w1, later);
  }

  // ---------------------------------------------------------------- two calls through one object

  lemma RunNext(w: World, m: Move, ms: seq<Move>, w': World)
    requires Step(w, m) == Some(w')
    ensures Run(w, [m] + ms) == Run(w', ms)
  {
    assert ([m] + ms)[1..] == ms;
  }

  lemma OneItem(item: Item)
    ensures Lists([item], map[item.path := item])
  {
    assert [item][..0] == [];
    assert ByPath([item]) == ByPath([])[item.path := item];
  }

  /** Slot `i` may take the lock of its object. */
  ghost predicate MayEnter(w: World, i: nat) {
    i < |w.calls| == |w.instance| && w.calls[i].Idle? && (w.lock.None? || w.lock.value == w.instance[i]) && Readable(w.file)
  }

  ghost function Inside(w: World, i: nat, call: Call): World
    requires MayEnter(w, i)
  {
    Set(w, i, Loaded(call, Stored(w.file))).(lock := Some(w.instance[i]))
  }

  ghost function Entering(i: nat, call: Call, rest: seq<Move>): seq<Move> {
    [Begin(i, call)] + ([Acquire(i)] + ([Load(i)] + rest))
  }

  lemma Enters(w: World, i: nat, call: Call, rest: seq<Move>)
    requires MayEnter(w, i)
    ensures Run(w, Entering(i, call, rest)) == Run(Inside(w, i, call), rest)
  {
    var w1 := Set(w, i, Waiting(call));
    var w2 := Set(w1, i, Holding(call)).(lock := Some(w.instance[i]));
    var w3 := Set(w2, i, Loaded(call, Stored(w.file)));
    RunNext(w, Begin(i, call), [Acquire(i)] + ([Load(i)] + rest), w1);
    RunNext(w1, Acquire(i), [Load(i)] + rest, w2);
    RunNext(w2, Load(i), rest, w3);
    assert w3.calls == Inside(w, i, call).calls;
  }

  /** A put that read nothing leaves its item alone in the file. */
  ghost predicate ReadNothing(w: World, i: nat, item: Item) {
    i < |w.calls| == |w.instance| && w.calls[i] == Loaded(Putting(item), map[]) && !Expired(item, w.clock)
  }

  ghost function AfterWrite(w: World, i: nat, item: Item): World
    requires i < |w.calls|
  {
    Free(w, i).(file := Items([item]), log := Then(w.log, DidPut(item)))
  }

  ghost function Writing(i: nat, item: Item, rest: seq<Move>): seq<Move> {
    [Update(i)] + ([Write(i, [item])] + rest)
  }

  lemma Writes(w: World, i: nat, item: Item, rest: seq<Move>)
    requires ReadNothing(w, i, item)
    ensures Run(w, Writing(i, item, rest)) == Run(AfterWrite(w, i, item), rest)
  {
    var none: map<string, Item> := map[];
    var one := none[item.path := item];
    assert Pruned(one, w.clock) == one == map[item.path := item];
    OneItem(item);
    var w1 := Set(w, i, Ready(item, one));
    RunNext(w, Update(i), [Write(i, [item])] + rest, w1);
    RunNext(w1, Write(i, [item]), rest, AfterWrite(w1, i, item));
    assert AfterWrite(w1, i, item).calls == AfterWrite(w, i, item).calls;
  }

  ghost function Asked(w: World, path: string): World {
    w.(lock := None, log := Then(w.log, DidGet(path, w.clock, Answer(Stored(w.file), path, w.clock))))
  }

  lemma Asks(w: World, i: nat, path: string)
    requires MayEnter(w, i)
    ensures Run(w, Entering(i, Getting(path), [Reply(i)] + [])) == Some(Asked(w, path))
  {
    Enters(w, i, Getting(path), [Reply(i)] + []);
    var w1 := Inside(w, i, Getting(path));
    RunNext(w1, Reply(i), [], Asked(w, path)) by {
      assert w1.calls[i := Idle] == w.calls;
    }
  }

  /** Slots `i` and `j` go through one object. */
  ghost predicate Sharing(w: World, i: nat, j: nat) {
    i < j < |w.calls| == |w.instance| && w.instance[i] == w.instance[j]
  }

  ghost function BothPut(i: nat, a: Item, j: nat, b: Item, rest: seq<Move>): seq<Move> {
    Entering(i, Putting(a), Entering(j, Putting(b), Writing(j, b, Writing(i, a, rest))))
  }

  ghost predicate LostAPut(w: World, after: World, a: Item, b: Item) {
    after == w.(file := Items([a]), log := Then(Then(w.log, DidPut(b)), DidPut(a)))
  }

  /** The second put is not kept out by the lock; the first one, still holding the nothing it read, overwrites it. */
  lemma BothPutRun(w: World, i: nat, a: Item, j: nat, b: Item, rest: seq<Move>) returns (after: World)
    requires Fresh(w) && Sharing(w, i, j) && !Expired(a, w.clock) && !Expired(b, w.clock)
    ensures Run(w, BothPut(i, a, j, b, rest)) == Run(after, rest) && LostAPut(w, after, a, b)
  {
    Enters(w, i, Putting(a), Entering(j, Putting(b), Writing(j, b, Writing(i, a, rest))));
    var w1 := Inside(w, i, Putting(a));
    Enters(w1, j, Putting(b), Writing(j, b, Writing(i, a, rest)));
    var w2 := Inside(w1, j, Putting(b));
    Writes(w2, j, b, Writing(i, a, rest));
    var w3 := AfterWrite(w2, j, b);
    Writes(w3, i, a, rest);
    after := AfterWrite(w3, i, a);
    assert after.calls == w.calls;
  }

  /** Wherever two calls may be in flight through one object, two puts and a get can go by in such a way that the
      get is told "not found" of what was just put. */
  lemma SharedObjectLosesAPut(w: World, a: Item, b: Item) returns (ms: seq<Move>)
    requires Fresh(w) && !OneCallEach(w) && a.path != b.path && !Expired(a, w.clock) && !Expired(b, w.clock)
    ensures Run(w, ms).Some? && Run(w, ms).value.log == Then(Then(Then(Start, DidPut(b)), DidPut(a)), DidGet(b.path, w.clock, NotFound))
    ensures !Legal(Run(w, ms).value.log)
  {
    var i, j :| 0 <= i < j < |w.instance| && w.instance[i] == w.instance[j];
    assert Sharing(w, i, j);
    var asking := Entering(i, Getting(b.path), [Reply(i)] + []);
    ms := BothPut(i, a, j, b, asking);
    var after := BothPutRun(w, i, a, j, b, asking);
    Asks(after, i, b.path);
    OneItem(a);
    var log := Then(Then(Start, DidPut(b)), DidPut(a));
    assert b.path in Plain(log) && Plain(log)[b.path] == b;
  }

  ghost predicate AlwaysRefines(w: World) {
    forall ms :: Run(w, ms).Some? ==> Refines(Run(w, ms).value)
  }

  /** From a fresh cache every interleaving refines the plain map if and only if no two calls in flight share a cache
      object. */
  lemma RefinesExactly(w: World)
    requires Fresh(w)
    ensures AlwaysRefines(w) <==> OneCallEach(w)
  {
    if OneCallEach(w) {
      forall ms | Run(w, ms).Some? ensures Refines(Run(w, ms).value) { CacheRefinesPlainMap(w, ms); }
    } else {
      var a, b := Item("a", 0, 0, "", w.clock), Item("b", 0, 0, "", w.clock);
      var ms := SharedObjectLosesAPut(w, a, b);
      assert !Refines(Run(w, ms).value);
    }
  }
}
