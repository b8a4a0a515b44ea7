/** `generateByWorkspace`: the pruned walk over a workspace, and the files it collects. */
module Workspaces {
  import opened Options
  import opened PathFilters
  import opened ModelfileObjects

  // ---------------------------------------------------------------- the workspace

  /** A file, a directory with its entries in the order of the walk, or what the file system will not show: a
      directory that cannot be listed, or an entry without its file information. */
  datatype Entry = File(name: string, size: nat) | Dir(name: string, children: seq<Entry>) | Unreadable(name: string)

  datatype Kind = Config | Model | Code | Doc

  /** The filter and the pattern tables; `skips` and the others are the tables' verdicts on a base name. */
  datatype Rules = Rules(glob: Glob, filter: PathFilter, tables: Tables)

  datatype Tables = Tables(skips: string -> bool, config: string -> bool, model: string -> bool, code: string -> bool, doc: string -> bool)

  const MAX_SINGLE: nat := 128_000_000_000
  const MAX_FILES: nat := 2048
  const MAX_TOTAL: nat := 8_000_000_000_000
  const WEIGHT_THRESHOLD: nat := 128_000_000

  predicate IsSkippable(t: Tables, name: string) {
    name != "." && name != ".." && t.skips(name)
  }

  /** The tables decide in the order config, model, code, doc; a file in none of them goes by its size. */
  function InferFileType(t: Tables, name: string, size: nat): Kind {
    if t.config(name) then Config
    else if t.model(name) then Model
    else if t.code(name) then Code
    else if t.doc(name) then Doc
    else if size > WEIGHT_THRESHOLD then Model
    else Code
  }

  /** `filepath.Rel` below the root, which is ".". */
  function Below(rel: string, name: string): string {
    if rel == "." then name else rel + "/" + name
  }

  // ---------------------------------------------------------------- which files belong

  datatype Place = Place(name: string, rel: string)

  /** A file, or an unreadable entry, with the directories above it, the root first. */
  datatype Leaf = Leaf(at: Place, size: nat, readable: bool, above: seq<Place>)

  /** Every file and every unreadable entry, in the order of an unpruned walk. */
  function Leaves(e: Entry, rel: string, above: seq<Place>): seq<Leaf> {
    match e
    case File(name, size) => [Leaf(Place(name, rel), size, true, above)]
    case Unreadable(name) => [Leaf(Place(name, rel), 0, false, above)]
    case Dir(name, children) => LeavesOf(children, rel, above + [Place(name, rel)])
  }

  function LeavesOf(es: seq<Entry>, rel: string, above: seq<Place>): seq<Leaf> {
    if es == [] then [] else Leaves(es[0], Below(rel, es[0].name), above) + LeavesOf(es[1..], rel, above)
  }

  predicate Excluded(r: Rules, rel: string) {
    Matches(r.glob, r.filter.excludes, rel)
  }

  predicate Passable(r: Rules, dir: Place) {
    !Excluded(r, dir.rel) && (IsSkippable(r.tables, dir.name) ==> Leads(r.glob, r.filter.includes, dir.rel))
  }

  /** A file belongs when every directory above it lets the walk through, and the file itself is neither
      skippable without being included, nor excluded. An unreadable entry is met before any of its own patterns are. */
  predicate Belongs(r: Rules, leaf: Leaf) {
    && (forall d :: d in leaf.above ==> Passable(r, d))
    && (leaf.readable && IsSkippable(r.tables, leaf.at.name) ==> Matches(r.glob, r.filter.includes, leaf.at.rel))
    && (leaf.readable ==> !Excluded(r, leaf.at.rel))
  }

  function Chosen(r: Rules, leaves: seq<Leaf>): seq<Leaf> {
    if leaves == [] then []
    else (if Belongs(r, leaves[0]) then [leaves[0]] else []) + Chosen(r, leaves[1..])
  }

  lemma {:induction false} ChosenAppend(r: Rules, a: seq<Leaf>, b: seq<Leaf>)
    ensures Chosen(r, a + b) == Chosen(r, a) + Chosen(r, b)
    decreases |a|
  {
    if a == [] {
      assert a + b == b;
    } else {
      assert (a + b)[1..] == a[1..] + b;
      ChosenAppend(r, a[1..], b);
    }
  }

  lemma {:induction false} ChosenExactly(r: Rules, leaves: seq<Leaf>, l: Leaf)
    ensures l in Chosen(r, leaves) <==> l in leaves && Belongs(r, l)
    decreases |leaves|
  {
    if leaves != [] {
      assert leaves == [leaves[0]] + leaves[1..];
      ChosenExactly(r, leaves[1..], l);
    }
  }

  /** Nothing below a directory that stops the walk belongs. */
  lemma {:induction false} NoneBelow(r: Rules, e: Entry, rel: string, above: seq<Place>)
    requires exists d :: d in above && !Passable(r, d)
    ensures Chosen(r, Leaves(e, rel, above)) == []
    decreases e, 0
  {
    match e
    case File(_, _) =>
    case Unreadable(_) =>
    case Dir(name, children) =>
      var d :| d in above && !Passable(r, d);
      assert d in above + [Place(name, rel)];
      NoneBelowAny(r, children, rel, above + [Place(name, rel)]);
  }

  lemma {:induction false} NoneBelowAny(r: Rules, es: seq<Entry>, rel: string, above: seq<Place>)
    requires exists d :: d in above && !Passable(r, d)
    ensures Chosen(r, LeavesOf(es, rel, above)) == []
    decreases es, 1
  {
    if es != [] {
      NoneBelow(r, es[0], Below(rel, es[0].name), above);
      NoneBelowAny(r, es[1..], rel, above);
      ChosenAppend(r, Leaves(es[0], Below(rel, es[0].name), above), LeavesOf(es[1..], rel, above));
    }
  }

  // ---------------------------------------------------------------- collecting them

  /** What ends the walk: an error of the file system, or a limit. */
  datatype Stop = Unread(path: string) | TooLarge(path: string) | TooMany | TooMuch

  /** The four sets of the Modelfile and the two counters of the walk. */
  datatype Haul = Haul(sets: map<Kind, set<string>>, count: nat, total: nat)

  predicate Full(sets: map<Kind, set<string>>) {
    Config in sets && Model in sets && Code in sets && Doc in sets
  }

  /** What the walk holds after some files, and what stopped it. */
  function Collected(t: Tables, leaves: seq<Leaf>, h: Haul): (Haul, Option<Stop>)
    requires Full(h.sets)
    decreases |leaves|
  {
    if leaves == [] then (h, None)
    else
      match Refused(leaves[0], h)
      case Some(stop) => (h, Some(stop))
      case None => Collected(t, leaves[1..], With(t, leaves[0], h))
  }

  function Refused(l: Leaf, h: Haul): Option<Stop> {
    if !l.readable then Some(Unread(l.at.rel))
    else if l.size > MAX_SINGLE then Some(TooLarge(l.at.rel))
    else if h.count + 1 > MAX_FILES then Some(TooMany)
    else if h.total + l.size > MAX_TOTAL then Some(TooMuch)
    else None
  }

  function KindOf(t: Tables, l: Leaf): Kind {
    InferFileType(t, l.at.name, l.size)
  }

  function With(t: Tables, l: Leaf, h: Haul): (h': Haul)
    requires Full(h.sets)
    ensures Full(h'.sets)
  {
    var kind := KindOf(t, l);
    Haul(h.sets[kind := h.sets[kind] + {l.at.rel}], h.count + 1, h.total + l.size)
  }

  lemma {:induction false} CollectedAppend(t: Tables, a: seq<Leaf>, b: seq<Leaf>, h: Haul)
    requires Full(h.sets)
    ensures Full(Collected(t, a, h).0.sets)
    ensures Collected(t, a + b, h) == if Collected(t, a, h).1.Some? then Collected(t, a, h) else Collected(t, b, Collected(t, a, h).0)
    decreases |a|
  {
    if a == [] {
      assert a + b == b;
    } else {
      assert (a + b)[1..] == a[1..] + b;
      if Refused(a[0], h).None? { CollectedAppend(t, a[1..], b, With(t, a[0], h)); }
    }
  }

  function TotalSize(leaves: seq<Leaf>): nat {
    if leaves == [] then 0 else leaves[0].size + TotalSize(leaves[1..])
  }

  /** All are readable, and together they meet the limits. */
  ghost predicate WithinLimits(leaves: seq<Leaf>, h: Haul) {
    && (forall l :: l in leaves ==> l.readable && l.size <= MAX_SINGLE)
    && h.count + |leaves| <= MAX_FILES
    && h.total + TotalSize(leaves) <= MAX_TOTAL
  }

  /** Nothing stops the walk if and only if all it meets is readable and the files together meet all three limits. */
  lemma {:induction false} CollectedWithin(t: Tables, leaves: seq<Leaf>, h: Haul)
    requires Full(h.sets) && h.count <= MAX_FILES && h.total <= MAX_TOTAL
    ensures Collected(t, leaves, h).1.None? <==> WithinLimits(leaves, h)
    decreases |leaves|
  {
    if leaves != [] {
      assert leaves == [leaves[0]] + leaves[1..];
      if Refused(leaves[0], h).None? {
        CollectedWithin(t, leaves[1..], With(t, leaves[0], h));
      } else {
        assert leaves[0] in leaves;
      }
    }
  }

  ghost predicate Among(t: Tables, leaves: seq<Leaf>, kind: Kind, rel: string) {
    exists l :: l in leaves && l.at.rel == rel && KindOf(t, l) == kind
  }

  lemma {:induction false} CollectedSets(t: Tables, leaves: seq<Leaf>, h: Haul, kind: Kind, rel: string)
    requires Full(h.sets) && Collected(t, leaves, h).1.None?
    ensures kind in h.sets && Full(Collected(t, leaves, h).0.sets) && kind in Collected(t, leaves, h).0.sets
    ensures rel in Collected(t, leaves, h).0.sets[kind] <==> rel in h.sets[kind] || Among(t, leaves, kind, rel)
    decreases |leaves|
  {
    assert kind.Config? || kind.Model? || kind.Code? || kind.Doc?;
    if leaves != [] {
      CollectedSets(t, leaves[1..], With(t, leaves[0], h), kind, rel);
      assert leaves == [leaves[0]] + leaves[1..];
      assert Among(t, leaves, kind, rel) <==> (leaves[0].at.rel == rel && KindOf(t, leaves[0]) == kind) || Among(t, leaves[1..], kind, rel);
    }
  }

  // ---------------------------------------------------------------- the walk

  /** Sizes are `int64`; a sum beyond that range wraps. */
  const TWO63: nat := 0x8000_0000_0000_0000

  function Wrap64(n: int): int {
    (n + TWO63) % (2 * TWO63) - TWO63
  }

  predicate Sized(e: Entry) {
    match e
    case File(_, size) => size < TWO63
    case Dir(_, children) => forall c :: c in children ==> Sized(c)
    case Unreadable(_) => true
  }

  ghost function SetsOf(mf: Modelfile): map<Kind, set<string>>
    reads mf
  {
    map[Config := mf.config, Model := mf.model, Code := mf.code, Doc := mf.doc]
  }

  /** What the callback does with a file that belongs. */
  method Take(mf: Modelfile, t: Tables, name: string, rel: string, size: nat, count: nat, total: nat, ghost above: seq<Place>)
    returns (e: Option<Stop>, count': nat, total': nat)
    requires size < TWO63 && count <= MAX_FILES && total <= MAX_TOTAL
    modifies mf`config, mf`model, mf`code, mf`doc
    ensures e == Refused(Leaf(Place(name, rel), size, true, above), Haul(old(SetsOf(mf)), count, total))
    ensures e.Some? ==> SetsOf(mf) == old(SetsOf(mf))
    ensures e.None? ==> Haul(SetsOf(mf), count', total') == With(t, Leaf(Place(name, rel), size, true, above), Haul(old(SetsOf(mf)), count, total))
    ensures e.None? ==> count' <= MAX_FILES && total' <= MAX_TOTAL
  {
    count' := count + 1;
    total' := total;
    var sum := Wrap64(total + size);
    if size > MAX_SINGLE {
      return Some(TooLarge(rel)), count', total';
    }
    if count' > MAX_FILES {
      return Some(TooMany), count', total';
    }
    if sum > MAX_TOTAL {
      return Some(TooMuch), count', total';
    }
    total' := sum;
    match InferFileType(t, name, size) {
      case Config => mf.config := mf.config + {rel};
      case Model => mf.model := mf.model + {rel};
      case Code => mf.code := mf.code + {rel};
      case Doc => mf.doc := mf.doc + {rel};
    }
    e := None;
  }

  /** `filepath.Walk` with the callback: a directory may be skipped, a file left out, and an error or a limit ends it all.
      A directory is listed before the callback is asked about it. */
  method Walk(mf: Modelfile, r: Rules, entry: Entry, rel: string, count: nat, total: nat, ghost above: seq<Place>)
    returns (e: Option<Stop>, count': nat, total': nat)
    requires Sized(entry) && count <= MAX_FILES && total <= MAX_TOTAL
    requires forall d :: d in above ==> Passable(r, d)
    modifies mf`config, mf`model, mf`code, mf`doc
    ensures var out := Collected(r.tables, Chosen(r, Leaves(entry, rel, above)), Haul(old(SetsOf(mf)), count, total));
            e == out.1 && SetsOf(mf) == out.0.sets && (e.None? ==> count' == out.0.count <= MAX_FILES && total' == out.0.total <= MAX_TOTAL)
    decreases entry, 0
  {
    e, count', total' := None, count, total;
    match entry
    case Unreadable(name) =>
      ghost var leaf := Leaf(Place(name, rel), 0, false, above);
      assert Chosen(r, [leaf]) == [leaf];
      e := Some(Unread(rel));
    case Dir(name, children) =>
      ghost var here := Place(name, rel);
      assert here in above + [here];
      var excluded := MatchAny(r.glob, r.filter.excludes, rel);
      if excluded {
        NoneBelowAny(r, children, rel, above + [here]);
        return;
      }
      if IsSkippable(r.tables, name) {
        var descend := ShouldDescend(r.glob, r.filter.includes, rel);
        if !descend {
          NoneBelowAny(r, children, rel, above + [here]);
          return;
        }
      }
      e, count', total' := WalkAll(mf, r, children, rel, count, total, above + [here]);
    case File(name, size) =>
      ghost var leaf := Leaf(Place(name, rel), size, true, above);
      assert Chosen(r, [leaf]) == if Belongs(r, leaf) then [leaf] else [];
      if IsSkippable(r.tables, name) {
        var included := MatchAny(r.glob, r.filter.includes, rel);
        if !included {
          return;
        }
      }
      var excluded := MatchAny(r.glob, r.filter.excludes, rel);
      if excluded {
        return;
      }
      e, count', total' := Take(mf, r.tables, name, rel, size, count, total, above);
  }

  method WalkAll(mf: Modelfile, r: Rules, entries: seq<Entry>, rel: string, count: nat, total: nat, ghost above: seq<Place>)
    returns (e: Option<Stop>, count': nat, total': nat)
    requires (forall c :: c in entries ==> Sized(c)) && count <= MAX_FILES && total <= MAX_TOTAL
    requires forall d :: d in above ==> Passable(r, d)
    modifies mf`config, mf`model, mf`code, mf`doc
    ensures var out := Collected(r.tables, Chosen(r, LeavesOf(entries, rel, above)), Haul(old(SetsOf(mf)), count, total));
            e == out.1 && SetsOf(mf) == out.0.sets && (e.None? ==> count' == out.0.count <= MAX_FILES && total' == out.0.total <= MAX_TOTAL)
    decreases entries, 1
  {
    e, count', total' := None, count, total;
    ghost var start := Haul(SetsOf(mf), count, total);
    for i := 0 to |entries|
      invariant e.None? && count' <= MAX_FILES && total' <= MAX_TOTAL
      invariant Collected(r.tables, Chosen(r, LeavesOf(entries[..i], rel, above)), start) == (Haul(SetsOf(mf), count', total'), None)
    {
      var child := entries[i];
      ghost var before, here := Chosen(r, LeavesOf(entries[..i], rel, above)), Leaves(child, Below(rel, child.name), above);
      e, count', total' := Walk(mf, r, child, Below(rel, child.name), count', total', above);
      LeavesSnoc(entries, i, rel, above);
      ChosenAppend(r, LeavesOf(entries[..i], rel, above), here);
      CollectedAppend(r.tables, before, Chosen(r, here), start);
      if e.Some? {
        LeavesSplit(entries, i + 1, rel, above);
        ChosenAppend(r, LeavesOf(entries[..i + 1], rel, above), LeavesOf(entries[i + 1..], rel, above));
        CollectedAppend(r.tables, Chosen(r, LeavesOf(entries[..i + 1], rel, above)), Chosen(r, LeavesOf(entries[i + 1..], rel, above)), start);
        return;
      }
    }
    assert entries[..|entries|] == entries;
  }

  lemma {:induction false} LeavesSplit(es: seq<Entry>, k: nat, rel: string, above: seq<Place>)
    requires k <= |es|
    ensures LeavesOf(es, rel, above) == LeavesOf(es[..k], rel, above) + LeavesOf(es[k..], rel, above)
    decreases k
  {
    if k == 0 {
      assert es[..0] == [] && es[0..] == es;
      assert LeavesOf(es[..0], rel, above) == [];
    } else {
      var head, rest := es[0], es[1..];
      var here := Leaves(head, Below(rel, head.name), above);
      LeavesSplit(rest, k - 1, rel, above);
      SplitLater(es, k);
      LeavesHead(es, rel, above);
      LeavesHead(es[..k], rel, above);
      Regrouped(here, LeavesOf(rest[..k - 1], rel, above), LeavesOf(es[k..], rel, above));
    }
  }

  lemma Regrouped(a: seq<Leaf>, b: seq<Leaf>, c: seq<Leaf>)
    ensures a + (b + c) == a + b + c
  {
  }

  lemma LeavesHead(es: seq<Entry>, rel: string, above: seq<Place>)
    requires es != []
    ensures LeavesOf(es, rel, above) == Leaves(es[0], Below(rel, es[0].name), above) + LeavesOf(es[1..], rel, above)
  {
  }

  lemma SplitLater(es: seq<Entry>, k: nat)
    requires 0 < k <= |es|
    ensures es[..k] != [] && es[..k][0] == es[0] && es[..k][1..] == es[1..][..k - 1] && es[1..][k - 1..] == es[k..]
  {
  }

  lemma LeavesSnoc(es: seq<Entry>, k: nat, rel: string, above: seq<Place>)
    requires k < |es|
    ensures LeavesOf(es[..k + 1], rel, above) == LeavesOf(es[..k], rel, above) + Leaves(es[k], Below(rel, es[k].name), above)
  {
    LeavesSplit(es[..k + 1], k, rel, above);
    assert es[..k + 1][..k] == es[..k] && es[..k + 1][k..] == [es[k]];
    assert [es[k]][1..] == [];
    assert LeavesOf([es[k]], rel, above) == Leaves(es[k], Below(rel, es[k].name), above) + LeavesOf([], rel, above);
  }

  datatype Failure = BadPattern(pattern: string) | Stopped(stop: Stop) | NothingFound

  /** The files of the workspace that belong. */
  function Picked(r: Rules, root: Entry): seq<Leaf> {
    Chosen(r, Leaves(root, ".", []))
  }

  function Outcome(r: Rules, root: Entry, sets: map<Kind, set<string>>): (Haul, Option<Stop>)
    requires Full(sets)
  {
    Collected(r.tables, Picked(r, root), Haul(sets, 0, 0))
  }

  method GenerateByWorkspace(mf: Modelfile, glob: Glob, tables: Tables, excludes: seq<string>, includes: seq<string>, root: Entry)
    returns (e: Option<Failure>)
    requires Sized(root)
    modifies mf`config, mf`model, mf`code, mf`doc
    ensures FilterOf(glob, excludes, includes).Err? ==>
              SetsOf(mf) == old(SetsOf(mf)) && e == Some(BadPattern(FilterOf(glob, excludes, includes).error))
    ensures FilterOf(glob, excludes, includes).Ok? ==>
              var out := Outcome(Rules(glob, FilterOf(glob, excludes, includes).value, tables), root, old(SetsOf(mf)));
              && SetsOf(mf) == out.0.sets
              && e == if out.1.Some? then Some(Stopped(out.1.value))
                      else if mf.model == {} && mf.code == {} && mf.dataset == {} then Some(NothingFound) else None
  {
    var filter := NewPathFilter(glob, excludes, includes);
    if filter.Err? {
      return Some(BadPattern(filter.error));
    }
    var stop, _, _ := Walk(mf, Rules(glob, filter.value, tables), root, ".", 0, 0, []);
    if stop.Some? {
      return Some(Stopped(stop.value));
    }
    if |mf.model| == 0 && |mf.code| == 0 && |mf.dataset| == 0 {
      return Some(NothingFound);
    }
    return None;
  }
}
