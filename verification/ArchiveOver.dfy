/** `Untar` over whatever is there. */
module Overlays {
  import opened Options
  import opened Text
  import opened Archiving
  import opened Archives

  // ---------------------------------------------------------------- entries without their names

  /** What an entry asks for, its name worked off. */
  datatype Op = Put(at: Path, node: Node) | Pass(at: Path) | Refuse

  function OpOf(dest: Path, e: Entry): Op {
    if Refused(Clean(e.name)) then Refuse
    else
      match e
      case DirEntry(_, mode) => Put(Target(dest, Clean(e.name)), Dir(mode))
      case FileEntry(_, mode, data) => Put(Target(dest, Clean(e.name)), File(mode, data))
      case OtherEntry(_) => Pass(Target(dest, Clean(e.name)))
  }

  function OpsOf(dest: Path, es: seq<Entry>): (ops: seq<Op>)
    ensures |ops| == |es|
  {
    if es == [] then [] else [OpOf(dest, es[0])] + OpsOf(dest, es[1..])
  }

  lemma {:induction false} OpsAt(dest: Path, es: seq<Entry>, k: nat)
    requires k < |es|
    ensures OpsOf(dest, es)[k] == OpOf(dest, es[k])
    decreases |es|
  {
    if k > 0 { OpsAt(dest, es[1..], k - 1); }
  }

  function Done(fs: Nodes, op: Op): (Nodes, bool) {
    match op
    case Refuse => (fs, false)
    case Pass(at) => MadeAll(fs, Parent(at), PARENT_MODE)
    case Put(at, node) =>
      var (up, ok) := MadeAll(fs, Parent(at), PARENT_MODE);
      if !ok || (at in up && up[at].Dir? != node.Dir?) then (up, false) else (up[at := node], true)
  }

  function DoneAll(fs: Nodes, ops: seq<Op>): (Nodes, bool)
    decreases |ops|
  {
    if ops == [] then (fs, true)
    else
      var (next, ok) := Done(fs, ops[0]);
      if ok then DoneAll(next, ops[1..]) else (next, false)
  }

  /** With its parent there, a directory is all that is made. */
  lemma OneMade(fs: Nodes, p: Path, mode: nat)
    requires Parent(p) in fs && fs[Parent(p)].Dir?
    ensures MadeAll(fs, p, mode) == if p in fs then (fs, fs[p].Dir?) else (fs[p := Dir(mode)], true)
  {
    if p != [] { assert MadeAll(fs, p[..|p| - 1], mode) == (fs, true); }
  }

  lemma UnpackedIsDone(fs: Nodes, dest: Path, e: Entry)
    ensures Unpacked(fs, dest, e) == Done(fs, OpOf(dest, e))
  {
    if !Refused(Clean(e.name)) {
      var target := Target(dest, Clean(e.name));
      var (up, ok) := MadeAll(fs, Parent(target), PARENT_MODE);
      MadeAllMakes(fs, Parent(target), PARENT_MODE);
      if ok && e.DirEntry? {
        OneMade(up, target, e.mode);
        assert up[target := Dir(e.mode)][target := Dir(e.mode)] == up[target := Dir(e.mode)];
      }
    }
  }

  lemma {:induction false} AllDone(fs: Nodes, dest: Path, es: seq<Entry>)
    ensures UnpackedAll(fs, dest, es) == DoneAll(fs, OpsOf(dest, es))
    decreases |es|
  {
    if es != [] {
      UnpackedIsDone(fs, dest, es[0]);
      assert OpsOf(dest, es)[1..] == OpsOf(dest, es[1..]);
      AllDone(Done(fs, OpOf(dest, es[0])).0, dest, es[1..]);
    }
  }

  // ---------------------------------------------------------------- what any list of them does to a path

  predicate Hits(op: Op, p: Path) {
    op.Put? && op.at == p
  }

  ghost predicate NoneHits(ops: seq<Op>, p: Path) {
    forall k :: 0 <= k < |ops| ==> !Hits(ops[k], p)
  }

  /** A directory above the place of one of them. */
  ghost predicate AboveOne(ops: seq<Op>, p: Path) {
    exists k :: 0 <= k < |ops| && !ops[k].Refuse? && p <= Parent(ops[k].at)
  }

  /** What a call of `os.MkdirAll` leaves at any path. */
  lemma {:induction false} MadeAllSeen(fs: Nodes, p: Path, mode: nat, x: Path)
    ensures var now := Lookup(MadeAll(fs, p, mode).0, x); now == Lookup(fs, x) || (x !in fs && x <= p && now == Some(Dir(mode)))
    decreases |p|
  {
    if p !in fs && p != [] { MadeAllSeen(fs, p[..|p| - 1], mode, x); }
  }

  lemma OthersSeen(fs: Nodes, op: Op, x: Path)
    requires !Hits(op, x)
    ensures var now := Lookup(Done(fs, op).0, x);
            now == Lookup(fs, x) || (x !in fs && !op.Refuse? && x <= Parent(op.at) && now == Some(Dir(0x1ED)))
  {
    if !op.Refuse? { MadeAllSeen(fs, Parent(op.at), PARENT_MODE, x); }
  }

  lemma HitsTail(ops: seq<Op>, x: Path)
    requires ops != [] && NoneHits(ops, x)
    ensures !Hits(ops[0], x) && NoneHits(ops[1..], x)
  {
    assert forall k :: 0 <= k < |ops[1..]| ==> ops[1..][k] == ops[k + 1];
  }

  /** What none hits stays as it is, however far they get. */
  lemma {:induction false} RestStays(fs: Nodes, ops: seq<Op>, x: Path)
    requires NoneHits(ops, x) && x in fs
    ensures Lookup(DoneAll(fs, ops).0, x) == Lookup(fs, x)
    decreases |ops|
  {
    if ops != [] {
      HitsTail(ops, x);
      OthersSeen(fs, ops[0], x);
      if Done(fs, ops[0]).1 { RestStays(Done(fs, ops[0]).0, ops[1..], x); }
    }
  }

  /** What is new without being hit is a directory above the place of one. */
  lemma {:induction false} NewIsAbove(fs: Nodes, ops: seq<Op>, x: Path)
    requires NoneHits(ops, x) && x !in fs && x in DoneAll(fs, ops).0
    ensures DoneAll(fs, ops).0[x] == Dir(0x1ED) && AboveOne(ops, x)
    decreases |ops|
  {
    var next, rest := Done(fs, ops[0]).0, ops[1..];
    HitsTail(ops, x);
    OthersSeen(fs, ops[0], x);
    if x !in next {
      NewIsAbove(next, rest, x);
      var k :| 0 <= k < |rest| && !rest[k].Refuse? && x <= Parent(rest[k].at);
      assert ops[k + 1] == rest[k];
    } else if Done(fs, ops[0]).1 {
      RestStays(next, rest, x);
    }
  }

  lemma {:induction false} DoneAppend(fs: Nodes, a: seq<Op>, b: seq<Op>)
    ensures DoneAll(fs, a + b) == if DoneAll(fs, a).1 then DoneAll(DoneAll(fs, a).0, b) else DoneAll(fs, a)
    decreases |a|
  {
    if a == [] {
      assert a + b == b;
    } else {
      assert (a + b)[1..] == a[1..] + b;
      if Done(fs, a[0]).1 { DoneAppend(Done(fs, a[0]).0, a[1..], b); }
    }
  }

  lemma FirstOf(fs: Nodes, op: Op, rest: seq<Op>)
    ensures DoneAll(fs, [op] + rest) == if Done(fs, op).1 then DoneAll(Done(fs, op).0, rest) else (Done(fs, op).0, false)
  {
    assert ([op] + rest)[1..] == rest;
  }

  /** A hit that no later one repeats. */
  lemma LastWins(fs: Nodes, a: seq<Op>, op: Op, b: seq<Op>, p: Path)
    requires DoneAll(fs, a + ([op] + b)).1 && Hits(op, p) && NoneHits(b, p)
    ensures Lookup(DoneAll(fs, a + ([op] + b)).0, p) == Some(op.node)
  {
    DoneAppend(fs, a, [op] + b);
    var before := DoneAll(fs, a).0;
    FirstOf(before, op, b);
    RestStays(Done(before, op).0, b, p);
  }

  lemma {:induction false} RefuseFails(fs: Nodes, ops: seq<Op>, k: nat)
    requires k < |ops| && ops[k].Refuse?
    ensures !DoneAll(fs, ops).1
    decreases |ops|
  {
    if k > 0 && Done(fs, ops[0]).1 {
      assert ops[1..][k - 1] == ops[k];
      RefuseFails(Done(fs, ops[0]).0, ops[1..], k - 1);
    }
  }

  // ---------------------------------------------------------------- any archive

  /** The entry is for a file or directory at `p`. */
  predicate Leads(dest: Path, e: Entry, p: Path) {
    !e.OtherEntry? && Target(dest, Clean(e.name)) == p
  }

  function Says(e: Entry): Node
    requires !e.OtherEntry?
  {
    match e
    case DirEntry(_, mode) => Dir(mode)
    case FileEntry(_, mode, data) => File(mode, data)
  }

  ghost predicate NoneLeads(dest: Path, es: seq<Entry>, p: Path) {
    forall k :: 0 <= k < |es| ==> !Leads(dest, es[k], p)
  }

  ghost predicate LastLeads(dest: Path, es: seq<Entry>, p: Path, k: nat) {
    k < |es| && Leads(dest, es[k], p) && forall j :: k < j < |es| ==> !Leads(dest, es[j], p)
  }

  lemma LeadsHits(dest: Path, e: Entry, p: Path)
    ensures Hits(OpOf(dest, e), p) ==> Leads(dest, e, p) && OpOf(dest, e).node == Says(e)
    ensures Leads(dest, e, p) && !OpOf(dest, e).Refuse? ==> Hits(OpOf(dest, e), p)
    ensures !OpOf(dest, e).Refuse? ==> OpOf(dest, e).at == Target(dest, Clean(e.name))
  {
  }

  ghost predicate LastHits(ops: seq<Op>, p: Path, k: nat) {
    k < |ops| && Hits(ops[k], p) && forall j :: k < j < |ops| ==> !Hits(ops[j], p)
  }

  lemma LastHitWins(fs: Nodes, ops: seq<Op>, p: Path, k: nat)
    requires DoneAll(fs, ops).1 && LastHits(ops, p, k)
    ensures Lookup(DoneAll(fs, ops).0, p) == Some(ops[k].node)
  {
    var a, op, b := ops[..k], ops[k], ops[k + 1..];
    assert ops == a + ([op] + b);
    forall j | 0 <= j < |b| ensures !Hits(b[j], p) { assert b[j] == ops[k + 1 + j]; }
    LastWins(fs, a, op, b, p);
  }

  lemma LastLeadsHits(dest: Path, es: seq<Entry>, p: Path, k: nat)
    requires LastLeads(dest, es, p, k) && !OpsOf(dest, es)[k].Refuse?
    ensures LastHits(OpsOf(dest, es), p, k) && OpsOf(dest, es)[k].node == Says(es[k])
  {
    var ops := OpsOf(dest, es);
    OpsAt(dest, es, k);
    LeadsHits(dest, es[k], p);
    forall j | k < j < |ops| ensures !Hits(ops[j], p) {
      OpsAt(dest, es, j);
      LeadsHits(dest, es[j], p);
    }
  }

  lemma NoneLeadsHits(dest: Path, es: seq<Entry>, p: Path)
    requires NoneLeads(dest, es, p)
    ensures NoneHits(OpsOf(dest, es), p)
  {
    forall k | 0 <= k < |es| ensures !Hits(OpsOf(dest, es)[k], p) {
      OpsAt(dest, es, k);
      LeadsHits(dest, es[k], p);
    }
  }

  /** For every file system and every archive that is unpacked to its end: a path some entry leads to holds what the
      last entry for it says, bytes and mode of a file or mode of a directory. */
  lemma UntarWrites(fs: Nodes, dest: Path, es: seq<Entry>, p: Path, k: nat)
    requires Untarred(fs, dest, es).1 && LastLeads(dest, es, p, k)
    ensures Lookup(Untarred(fs, dest, es).0, p) == Some(Says(es[k]))
  {
    var made := MadeAll(fs, dest, PARENT_MODE).0;
    var ops := OpsOf(dest, es);
    AllDone(made, dest, es);
    if ops[k].Refuse? { RefuseFails(made, ops, k); }
    LastLeadsHits(dest, es, p, k);
    LastHitWins(made, ops, p, k);
  }

  /** And unpacked to its end or not: what no entry leads to is as it was, and what is new without an entry for it is a
      directory at or above the destination, or above the place of an entry. */
  lemma UntarLeaves(fs: Nodes, dest: Path, es: seq<Entry>, p: Path)
    requires NoneLeads(dest, es, p)
    ensures p in fs ==> Lookup(Untarred(fs, dest, es).0, p) == Lookup(fs, p)
    ensures p !in fs && p in Untarred(fs, dest, es).0 ==>
              && Untarred(fs, dest, es).0[p] == Dir(0x1ED)
              && (p <= dest || exists k :: 0 <= k < |es| && p <= Parent(Target(dest, Clean(es[k].name))))
  {
    var (made, ok) := MadeAll(fs, dest, PARENT_MODE);
    var ops := OpsOf(dest, es);
    MadeAllSeen(fs, dest, PARENT_MODE, p);
    if ok {
      AllDone(made, dest, es);
      NoneLeadsHits(dest, es, p);
      if p in made { RestStays(made, ops, p); } else if p in DoneAll(made, ops).0 {
        NewIsAbove(made, ops, p);
        var k :| 0 <= k < |ops| && !ops[k].Refuse? && p <= Parent(ops[k].at);
        OpsAt(dest, es, k);
        LeadsHits(dest, es[k], p);
      }
    }
  }

  /** A name that, once cleaned, holds no two dots in a row and starts neither with a slash nor with a colon and a
      backslash. */
  ghost predicate PlainName(name: string) {
    && (forall i :: 0 <= i < |name| - 1 ==> name[i] != '.' || name[i + 1] != '.')
    && (name != "" ==> name[0] != '/') && (|name| > 1 ==> name[0] != ':' || name[1] != '\\')
  }

  lemma AcceptedPlain(name: string)
    ensures !Refused(name) <==> PlainName(name)
  {
    if name != "" && name[0] == '/' { assert "/" <= name; }
    if |name| > 1 && name[0] == ':' && name[1] == '\\' { assert ":\\" <= name; }
  }

  /** Only such names are unpacked. */
  lemma UnpackedNames(fs: Nodes, dest: Path, es: seq<Entry>, k: nat)
    requires Untarred(fs, dest, es).1 && k < |es|
    ensures PlainName(Clean(es[k].name))
  {
    if Refused(Clean(es[k].name)) { RefusedFails(MadeAll(fs, dest, PARENT_MODE).0, dest, es, k); }
    AcceptedPlain(Clean(es[k].name));
  }

  // ---------------------------------------------------------------- a packed tree

  function TreeOps(t: Tree, base: Path): seq<Op>
    decreases t, 0
  {
    [Put(base, NodeOf(t))] + if t.Branch? then ChildOps(t.children, base) else []
  }

  function ChildOps(cs: seq<Child>, base: Path): seq<Op>
    decreases cs, 1
  {
    if cs == [] then [] else TreeOps(cs[0].tree, base + [cs[0].name]) + ChildOps(cs[1..], base)
  }

  lemma {:induction false} OpsAppend(dest: Path, a: seq<Entry>, b: seq<Entry>)
    ensures OpsOf(dest, a + b) == OpsOf(dest, a) + OpsOf(dest, b)
    decreases |a|
  {
    if a == [] {
      assert a + b == b;
    } else {
      assert (a + b)[1..] == a[1..] + b;
      OpsAppend(dest, a[1..], b);
    }
  }

  lemma HeaderOp(dest: Path, t: Tree, at: Path)
    requires PathOk(dest) && PathOk(at) && !Refused(NameOf(at))
    ensures OpsOf(dest, [Header(t, at)]) == [Put(dest + at, NodeOf(t))]
  {
    NameKept(dest, at);
  }

  lemma ChildrenTail(cs: seq<Child>)
    requires cs != [] && ChildrenOk(cs)
    ensures NameOk(cs[0].name) && TreeOk(cs[0].tree) && ChildrenOk(cs[1..]) && forall i :: 0 <= i < |cs[1..]| ==> cs[1..][i].name != cs[0].name
  {
    assert forall i :: 0 <= i < |cs[1..]| ==> cs[1..][i] == cs[i + 1];
  }

  /** With its names accepted, a packed tree asks for the paths of the tree. */
  lemma {:induction false} TreeIsOps(dest: Path, t: Tree, at: Path)
    requires PathOk(dest) && PathOk(at) && TreeOk(t) && Accepted(Tarred(t, at))
    ensures OpsOf(dest, Tarred(t, at)) == TreeOps(t, dest + at)
    decreases t, 0
  {
    var below := if t.Branch? then TarredAll(t.children, at) else [];
    AcceptedSplit([Header(t, at)], below);
    assert Tarred(t, at)[0] == Header(t, at);
    HeaderOp(dest, t, at);
    OpsAppend(dest, [Header(t, at)], below);
    if t.Branch? { ChildrenAreOps(dest, t.children, at); }
  }

  lemma {:induction false} ChildrenAreOps(dest: Path, cs: seq<Child>, at: Path)
    requires PathOk(dest) && PathOk(at) && ChildrenOk(cs) && Accepted(TarredAll(cs, at))
    ensures OpsOf(dest, TarredAll(cs, at)) == ChildOps(cs, dest + at)
    decreases cs, 1
  {
    if cs != [] {
      ChildrenTail(cs);
      AcceptedSplit(Tarred(cs[0].tree, at + [cs[0].name]), TarredAll(cs[1..], at));
      ChildIsOps(dest, cs[0], at);
      ChildrenAreOps(dest, cs[1..], at);
      OpsAppend(dest, Tarred(cs[0].tree, at + [cs[0].name]), TarredAll(cs[1..], at));
    }
  }

  lemma {:induction false} ChildIsOps(dest: Path, c: Child, at: Path)
    requires PathOk(dest) && PathOk(at) && NameOk(c.name) && TreeOk(c.tree) && Accepted(Tarred(c.tree, at + [c.name]))
    ensures OpsOf(dest, Tarred(c.tree, at + [c.name])) == TreeOps(c.tree, dest + at + [c.name])
    decreases c.tree, 1
  {
    assert dest + (at + [c.name]) == dest + at + [c.name];
    TreeIsOps(dest, c.tree, at + [c.name]);
  }

  /** Everything is put at a path of the tree. */
  lemma {:induction false} TreePlaces(t: Tree, base: Path, k: nat)
    requires TreeOk(t) && k < |TreeOps(t, base)|
    ensures var op := TreeOps(t, base)[k]; op.Put? && base <= op.at && NodeAt(t, op.at[|base|..]).Some?
    decreases t, 0
  {
    if k == 0 {
      assert base[|base|..] == [];
    } else {
      ChildPlaces(t.children, base, k - 1);
    }
  }

  lemma {:induction false} ChildPlaces(cs: seq<Child>, base: Path, k: nat)
    requires ChildrenOk(cs) && k < |ChildOps(cs, base)|
    ensures var op := ChildOps(cs, base)[k];
            && op.Put? && base < op.at && ChildAt(cs, op.at[|base|..]).Some?
            && exists i :: 0 <= i < |cs| && cs[i].name == op.at[|base|]
    decreases cs, 1
  {
    var c, here := cs[0], TreeOps(cs[0].tree, base + [cs[0].name]);
    var op := ChildOps(cs, base)[k];
    ChildrenTail(cs);
    if k < |here| {
      TreePlaces(c.tree, base + [c.name], k);
      BelowChild(base, c.name, op.at);
    } else {
      ChildPlaces(cs[1..], base, k - |here|);
      var i :| 0 <= i < |cs[1..]| && cs[1..][i].name == op.at[|base|];
      assert cs[i + 1] == cs[1..][i] && op.at[|base|..][0] == op.at[|base|];
    }
  }

  lemma BelowChild(base: Path, name: string, p: Path)
    requires base + [name] <= p
    ensures base < p && p[|base|] == name && p[|base|..][0] == name && p[|base|..][1..] == p[|base + [name]|..]
  {
    assert p[|base|] == (base + [name])[|base|];
  }

  /** No child is put at its directory, nor under the name of another. */
  lemma ChildrenMiss(cs: seq<Child>, base: Path, x: Path)
    requires ChildrenOk(cs) && (x == base || (base < x && forall i :: 0 <= i < |cs| ==> cs[i].name != x[|base|]))
    ensures NoneHits(ChildOps(cs, base), x)
  {
    forall k | 0 <= k < |ChildOps(cs, base)| ensures !Hits(ChildOps(cs, base)[k], x) { ChildPlaces(cs, base, k); }
  }

  lemma StaysBehind(fs: Nodes, a: seq<Op>, b: seq<Op>, x: Path)
    requires DoneAll(fs, a + b).1 && x in DoneAll(fs, a).0 && NoneHits(b, x)
    ensures Lookup(DoneAll(fs, a + b).0, x) == Lookup(DoneAll(fs, a).0, x)
  {
    DoneAppend(fs, a, b);
    RestStays(DoneAll(fs, a).0, b, x);
  }

  /** Every path of the tree ends with what the tree has there. */
  lemma {:induction false} TreeWins(fs: Nodes, t: Tree, base: Path, q: Path)
    requires TreeOk(t) && DoneAll(fs, TreeOps(t, base)).1 && NodeAt(t, q).Some?
    ensures Lookup(DoneAll(fs, TreeOps(t, base)).0, base + q) == NodeAt(t, q)
    decreases t, 0
  {
    var op, rest := Put(base, NodeOf(t)), if t.Branch? then ChildOps(t.children, base) else [];
    FirstOf(fs, op, rest);
    if q == [] {
      assert base + q == base;
      if t.Branch? {
        ChildrenMiss(t.children, base, base);
        RestStays(Done(fs, op).0, rest, base);
      }
    } else {
      ChildrenWin(Done(fs, op).0, t.children, base, q);
    }
  }

  lemma {:induction false} ChildrenWin(fs: Nodes, cs: seq<Child>, base: Path, q: Path)
    requires ChildrenOk(cs) && DoneAll(fs, ChildOps(cs, base)).1 && q != [] && ChildAt(cs, q).Some?
    ensures Lookup(DoneAll(fs, ChildOps(cs, base)).0, base + q) == ChildAt(cs, q)
    decreases cs, 1
  {
    var c := cs[0];
    var here, rest := TreeOps(c.tree, base + [c.name]), ChildOps(cs[1..], base);
    ChildrenTail(cs);
    DoneAppend(fs, here, rest);
    if c.name == q[0] {
      assert base + [c.name] + q[1..] == base + q && (base + q)[|base|] == c.name;
      TreeWins(fs, c.tree, base + [c.name], q[1..]);
      ChildrenMiss(cs[1..], base, base + q);
      StaysBehind(fs, here, rest, base + q);
    } else {
      ChildrenWin(DoneAll(fs, here).0, cs[1..], base, q);
    }
  }

  // ---------------------------------------------------------------- when it succeeds

  /** Where the tree has something and there is something, both are files or both directories. */
  ghost predicate Fits(fs: Nodes, base: Path, t: Tree) {
    forall q :: Agree(NodeAt(t, q), Lookup(fs, base + q))
  }

  predicate Agree(a: Option<Node>, b: Option<Node>) {
    a.Some? && b.Some? ==> a.value.Dir? == b.value.Dir?
  }

  ghost predicate ChildrenFit(fs: Nodes, base: Path, cs: seq<Child>) {
    forall q :: q != [] ==> Agree(ChildAt(cs, q), Lookup(fs, base + q))
  }

  ghost predicate SameBelow(fs: Nodes, next: Nodes, base: Path, cs: seq<Child>) {
    forall q: Path :: q != [] && ChildAt(cs, q).Some? ==> Lookup(next, base + q) == Lookup(fs, base + q)
  }

  lemma {:induction false} NamedChild(cs: seq<Child>, q: Path)
    requires q != [] && ChildAt(cs, q).Some?
    ensures exists i :: 0 <= i < |cs| && cs[i].name == q[0]
    decreases |cs|
  {
    if cs[0].name != q[0] {
      NamedChild(cs[1..], q);
      var i :| 0 <= i < |cs[1..]| && cs[1..][i].name == q[0];
      assert cs[i + 1] == cs[1..][i];
    }
  }

  /** One child leaves what is under the names of the others. */
  lemma OthersSame(fs: Nodes, base: Path, c: Child, others: seq<Child>)
    requires TreeOk(c.tree) && forall i :: 0 <= i < |others| ==> others[i].name != c.name
    ensures SameBelow(fs, DoneAll(fs, TreeOps(c.tree, base + [c.name])).0, base, others)
  {
    var ops := TreeOps(c.tree, base + [c.name]);
    forall q: Path | q != [] && ChildAt(others, q).Some? ensures Lookup(DoneAll(fs, ops).0, base + q) == Lookup(fs, base + q) {
      NamedChild(others, q);
      NotUnder(fs, base, c, q);
    }
  }

  lemma PathsApart(base: Path, name: string, q: Path, p: Path)
    requires q != [] && q[0] != name && base + [name] <= p
    ensures p != base + q && !(base + q <= p) && !(base + q <= Parent(p))
  {
    assert p[|base|] == (base + [name])[|base|] == name && (base + q)[|base|] == q[0];
    assert Parent(p) <= p;
  }

  lemma NotUnder(fs: Nodes, base: Path, c: Child, q: Path)
    requires TreeOk(c.tree) && q != [] && q[0] != c.name
    ensures var ops := TreeOps(c.tree, base + [c.name]); Lookup(DoneAll(fs, ops).0, base + q) == Lookup(fs, base + q)
  {
    var ops, x := TreeOps(c.tree, base + [c.name]), base + q;
    forall k | 0 <= k < |ops| ensures ops[k].Put? && ops[k].at != x && !(x <= Parent(ops[k].at)) {
      TreePlaces(c.tree, base + [c.name], k);
      PathsApart(base, c.name, q, ops[k].at);
    }
    if x in fs { RestStays(fs, ops, x); } else if x in DoneAll(fs, ops).0 { NewIsAbove(fs, ops, x); }
  }

  /** The first of the tree's entries. */
  lemma HeaderDone(fs: Nodes, base: Path, node: Node)
    requires Parent(base) in fs && fs[Parent(base)].Dir?
    ensures Done(fs, Put(base, node)).1 <==> Agree(Some(node), Lookup(fs, base))
    ensures Done(fs, Put(base, node)).1 ==> Done(fs, Put(base, node)).0 == fs[base := node]
  {
  }

  lemma {:induction false} TreeSucceeds(fs: Nodes, t: Tree, base: Path)
    requires TreeOk(t) && Parent(base) in fs && fs[Parent(base)].Dir?
    ensures DoneAll(fs, TreeOps(t, base)).1 <==> Fits(fs, base, t)
    decreases t, 0
  {
    var op, rest := Put(base, NodeOf(t)), if t.Branch? then ChildOps(t.children, base) else [];
    FirstOf(fs, op, rest);
    HeaderDone(fs, base, NodeOf(t));
    assert base + [] == base;
    if !Done(fs, op).1 {
      assert !Agree(NodeAt(t, []), Lookup(fs, base + []));
    } else if t.Branch? {
      var next := fs[base := NodeOf(t)];
      ChildrenSucceed(next, t.children, base);
      BranchFits(fs, next, base, t);
    } else {
      forall q ensures Agree(NodeAt(t, q), Lookup(fs, base + q)) { assert q == [] || NodeAt(t, q).None?; }
    }
  }

  lemma BranchFits(fs: Nodes, next: Nodes, base: Path, t: Tree)
    requires t.Branch? && next == fs[base := NodeOf(t)] && Agree(Some(NodeOf(t)), Lookup(fs, base))
    ensures Fits(fs, base, t) <==> ChildrenFit(next, base, t.children)
  {
    assert base + [] == base;
    forall q: Path | q != [] ensures Lookup(next, base + q) == Lookup(fs, base + q) && NodeAt(t, q) == ChildAt(t.children, q) {
      assert base + q != base by { assert |base + q| > |base|; }
    }
    if Fits(fs, base, t) {
      forall q: Path | q != [] ensures Agree(ChildAt(t.children, q), Lookup(next, base + q)) { assert Agree(NodeAt(t, q), Lookup(fs, base + q)); }
    }
    if ChildrenFit(next, base, t.children) {
      forall q ensures Agree(NodeAt(t, q), Lookup(fs, base + q)) { if q != [] { assert Agree(ChildAt(t.children, q), Lookup(next, base + q)); } }
    }
  }

  lemma {:induction false} ChildrenSucceed(fs: Nodes, cs: seq<Child>, base: Path)
    requires ChildrenOk(cs) && base in fs && fs[base].Dir?
    ensures DoneAll(fs, ChildOps(cs, base)).1 <==> ChildrenFit(fs, base, cs)
    decreases cs, 1
  {
    if cs != [] {
      var c := cs[0];
      var here, rest := TreeOps(c.tree, base + [c.name]), ChildOps(cs[1..], base);
      ChildrenTail(cs);
      DoneAppend(fs, here, rest);
      assert Parent(base + [c.name]) == base;
      TreeSucceeds(fs, c.tree, base + [c.name]);
      var next := DoneAll(fs, here).0;
      DirectoryStays(fs, base, c);
      ChildrenSucceed(next, cs[1..], base);
      OthersSame(fs, base, c, cs[1..]);
      FitsByParts(fs, next, base, cs);
    }
  }

  lemma DirectoryStays(fs: Nodes, base: Path, c: Child)
    requires TreeOk(c.tree) && base in fs
    ensures Lookup(DoneAll(fs, TreeOps(c.tree, base + [c.name])).0, base) == Lookup(fs, base)
  {
    var ops := TreeOps(c.tree, base + [c.name]);
    forall k | 0 <= k < |ops| ensures !Hits(ops[k], base) { TreePlaces(c.tree, base + [c.name], k); }
    RestStays(fs, ops, base);
  }

  lemma FitsByParts(fs: Nodes, next: Nodes, base: Path, cs: seq<Child>)
    requires cs != [] && ChildrenOk(cs) && SameBelow(fs, next, base, cs[1..])
    ensures ChildrenFit(fs, base, cs) <==> Fits(fs, base + [cs[0].name], cs[0].tree) && ChildrenFit(next, base, cs[1..])
  {
    var c, others := cs[0], cs[1..];
    ChildrenTail(cs);
    forall q: Path ensures base + [c.name] + q == base + ([c.name] + q) && ChildAt(cs, [c.name] + q) == NodeAt(c.tree, q) {
      assert ([c.name] + q)[1..] == q;
    }
    if ChildrenFit(fs, base, cs) {
      forall q ensures Agree(NodeAt(c.tree, q), Lookup(fs, base + [c.name] + q)) { assert Agree(ChildAt(cs, [c.name] + q), Lookup(fs, base + ([c.name] + q))); }
      forall q: Path | q != [] ensures Agree(ChildAt(others, q), Lookup(next, base + q)) {
        if ChildAt(others, q).Some? {
          NamedChild(others, q);
          assert Agree(ChildAt(cs, q), Lookup(fs, base + q));
        }
      }
    }
    if Fits(fs, base + [c.name], c.tree) && ChildrenFit(next, base, others) {
      forall q: Path | q != [] ensures Agree(ChildAt(cs, q), Lookup(fs, base + q)) {
        if q[0] == c.name {
          assert [c.name] + q[1..] == q;
          assert Agree(NodeAt(c.tree, q[1..]), Lookup(fs, base + [c.name] + q[1..]));
        } else {
          assert Agree(ChildAt(others, q), Lookup(next, base + q));
        }
      }
    }
  }

  // ---------------------------------------------------------------- the theorems

  /** Unpacking can begin: the destination and the directories above the tree can be made. */
  ghost predicate Begins(fs: Nodes, dest: Path, at: Path) {
    MadeAll(fs, dest, PARENT_MODE).1 && MadeAll(MadeAll(fs, dest, PARENT_MODE).0, Parent(dest + at), PARENT_MODE).1
  }

  lemma TarredAccepted(fs: Nodes, dest: Path, t: Tree, at: Path)
    requires PathOk(at) && TreeOk(t) && UnpackedAll(fs, dest, Tarred(t, at)).1
    ensures Accepted(Tarred(t, at))
  {
    forall k | 0 <= k < |Tarred(t, at)| ensures !Refused(Tarred(t, at)[k].name) {
      TarredNames(t, at, k);
      if Refused(Tarred(t, at)[k].name) { RefusedFails(fs, dest, Tarred(t, at), k); }
    }
  }

  lemma DestinationMade(fs: Nodes, dest: Path, at: Path)
    requires Begins(fs, dest, at)
    ensures var ready := Prepared(fs, dest, at);
            && dest in ready && ready[dest].Dir? && Parent(dest + at) in ready && ready[Parent(dest + at)].Dir?
            && forall q :: (at == [] ==> q != []) ==> Lookup(ready, dest + at + q) == Lookup(fs, dest + at + q)
  {
    var made, up := MadeAll(fs, dest, PARENT_MODE).0, Parent(dest + at);
    MadeAllMakes(fs, dest, PARENT_MODE);
    MadeAllMakes(made, up, PARENT_MODE);
    forall q: Path | at == [] ==> q != [] ensures Lookup(Prepared(fs, dest, at), dest + at + q) == Lookup(fs, dest + at + q) {
      MadeAllSeen(fs, dest, PARENT_MODE, dest + at + q);
      MadeAllSeen(made, up, PARENT_MODE, dest + at + q);
      assert |dest + at + q| > |dest| && (up != [] || |dest + at + q| > 0) && |dest + at + q| > |up|;
    }
  }

  /** Making the directories above beforehand changes nothing. */
  lemma PreparedFirst(fs: Nodes, t: Tree, base: Path)
    requires MadeAll(fs, Parent(base), PARENT_MODE).1
    ensures DoneAll(fs, TreeOps(t, base)) == DoneAll(MadeAll(fs, Parent(base), PARENT_MODE).0, TreeOps(t, base))
  {
    var op, rest := Put(base, NodeOf(t)), if t.Branch? then ChildOps(t.children, base) else [];
    MadeTwice(fs, Parent(base));
    var up := MadeAll(fs, Parent(base), PARENT_MODE).0;
    FirstOf(fs, op, rest);
    FirstOf(up, op, rest);
  }

  /** Over anything: a packed tree is unpacked to its end if and only if the directories it goes into can be made, its
      names are plain, and nothing is in its way but files where it has files and directories where it has directories. */
  lemma {:induction false} UntarOverSucceedsExactly(fs: Nodes, dest: Path, t: Tree, at: Path)
    requires PathOk(dest) && PathOk(at) && TreeOk(t) && (at == [] ==> t.Branch?)
    ensures Untarred(fs, dest, Tarred(t, at)).1 <==> Begins(fs, dest, at) && Accepted(Tarred(t, at)) && Fits(fs, dest + at, t)
    ensures Untarred(fs, dest, Tarred(t, at)).1 ==>
              Untarred(fs, dest, Tarred(t, at)) == DoneAll(Prepared(fs, dest, at), TreeOps(t, dest + at))
  {
    var made, es, base := MadeAll(fs, dest, PARENT_MODE).0, Tarred(t, at), dest + at;
    if MadeAll(fs, dest, PARENT_MODE).1 {
      if UnpackedAll(made, dest, es).1 { TarredAccepted(made, dest, t, at); }
      if Accepted(es) {
        AllDone(made, dest, es);
        TreeIsOps(dest, t, at);
        if Begins(fs, dest, at) {
          PreparedFirst(made, t, base);
          DestinationMade(fs, dest, at);
          TreeSucceeds(Prepared(fs, dest, at), t, base);
          FitsPrepared(fs, dest, t, at);
        } else {
          assert TreeOps(t, base)[0] == Put(base, NodeOf(t));
        }
      }
    }
  }

  lemma FitsPrepared(fs: Nodes, dest: Path, t: Tree, at: Path)
    requires Begins(fs, dest, at) && (at == [] ==> t.Branch?)
    ensures Fits(Prepared(fs, dest, at), dest + at, t) <==> Fits(fs, dest + at, t)
  {
    var ready, base := Prepared(fs, dest, at), dest + at;
    DestinationMade(fs, dest, at);
    assert base + [] == base && (at == [] ==> base == dest);
    if at == [] { MadeAllMakes(fs, dest, PARENT_MODE); }
    forall q: Path ensures Agree(NodeAt(t, q), Lookup(ready, base + q)) <==> Agree(NodeAt(t, q), Lookup(fs, base + q)) {
      if at == [] && q == [] { assert NodeAt(t, q) == Some(NodeOf(t)) && (dest in fs ==> fs[dest].Dir?); }
    }
    if Fits(fs, base, t) { forall q ensures Agree(NodeAt(t, q), Lookup(ready, base + q)) { assert Agree(NodeAt(t, q), Lookup(fs, base + q)); } }
    if Fits(ready, base, t) { forall q ensures Agree(NodeAt(t, q), Lookup(fs, base + q)) { assert Agree(NodeAt(t, q), Lookup(ready, base + q)); } }
  }

  /** Above what a tree has it has directories. */
  lemma {:induction false} PrefixThere(t: Tree, q: Path, longer: Path)
    requires q <= longer && NodeAt(t, longer).Some?
    ensures NodeAt(t, q).Some?
    decreases t, 0
  {
    if q != [] { ChildPrefixThere(t.children, q, longer); }
  }

  lemma {:induction false} ChildPrefixThere(cs: seq<Child>, q: Path, longer: Path)
    requires q != [] && q <= longer && ChildAt(cs, longer).Some?
    ensures ChildAt(cs, q).Some?
    decreases cs, 1
  {
    assert q[0] == longer[0] && q[1..] <= longer[1..];
    if cs[0].name == q[0] { PrefixThere(cs[0].tree, q[1..], longer[1..]); } else { ChildPrefixThere(cs[1..], q, longer); }
  }

  /** What the tree does not have stays as it is at or below its place. */
  lemma TreeLeaves(fs: Nodes, t: Tree, base: Path, q: Path)
    requires TreeOk(t) && NodeAt(t, q).None?
    ensures Lookup(DoneAll(fs, TreeOps(t, base)).0, base + q) == Lookup(fs, base + q)
  {
    var ops, x := TreeOps(t, base), base + q;
    assert x[|base|..] == q;
    forall k | 0 <= k < |ops| ensures ops[k].Put? && ops[k].at != x && !(x <= Parent(ops[k].at)) {
      TreePlaces(t, base, k);
      NotAbove(t, base, q, ops[k].at);
    }
    if x in fs { RestStays(fs, ops, x); } else if x in DoneAll(fs, ops).0 { NewIsAbove(fs, ops, x); }
  }

  lemma NotAbove(t: Tree, base: Path, q: Path, p: Path)
    requires base <= p && NodeAt(t, p[|base|..]).Some? && NodeAt(t, q).None?
    ensures p != base + q && !(base + q <= Parent(p))
  {
    assert (base + q)[|base|..] == q && Parent(p) <= p;
    if base + q <= p {
      assert q <= p[|base|..];
      PrefixThere(t, q, p[|base|..]);
    }
  }

  /** Then every path at or below its place has what the tree has there, and what was there before where the tree has
      nothing. */
  lemma UntarOverRestores(fs: Nodes, dest: Path, t: Tree, at: Path, q: Path)
    requires PathOk(dest) && PathOk(at) && TreeOk(t) && (at == [] ==> t.Branch?) && Untarred(fs, dest, Tarred(t, at)).1
    ensures Lookup(Untarred(fs, dest, Tarred(t, at)).0, dest + at + q) == if NodeAt(t, q).Some? then NodeAt(t, q) else Lookup(fs, dest + at + q)
  {
    var ready := Prepared(fs, dest, at);
    UntarOverSucceedsExactly(fs, dest, t, at);
    if NodeAt(t, q).Some? {
      TreeWins(ready, t, dest + at, q);
    } else {
      DestinationMade(fs, dest, at);
      TreeLeaves(ready, t, dest + at, q);
    }
  }

  /** Two trees with files in the same places and directories in the same places. */
  ghost predicate SameShape(a: Tree, b: Tree) {
    forall q :: (NodeAt(a, q).Some? <==> NodeAt(b, q).Some?) && Agree(NodeAt(a, q), NodeAt(b, q))
  }

  /** The names of a tree's entries are those of its paths. */
  lemma {:induction false} NamesOfPaths(t: Tree, at: Path, k: nat) returns (q: Path)
    requires PathOk(at) && TreeOk(t) && k < |Tarred(t, at)|
    ensures NodeAt(t, q).Some? && Tarred(t, at)[k].name == NameOf(at + q)
    decreases t, 0
  {
    if k == 0 {
      q := [];
      assert at + q == at;
    } else {
      q := NamesOfChildren(t.children, at, k - 1);
    }
  }

  lemma TarredFirst(cs: seq<Child>, at: Path, k: nat)
    requires cs != [] && k < |Tarred(cs[0].tree, at + [cs[0].name])|
    ensures k < |TarredAll(cs, at)| && TarredAll(cs, at)[k] == Tarred(cs[0].tree, at + [cs[0].name])[k]
  {
  }

  lemma TarredLater(cs: seq<Child>, at: Path, k: nat)
    requires cs != [] && k < |TarredAll(cs[1..], at)|
    ensures var n := |Tarred(cs[0].tree, at + [cs[0].name])|;
            n + k < |TarredAll(cs, at)| && TarredAll(cs, at)[n + k] == TarredAll(cs[1..], at)[k]
  {
  }

  lemma TarredLength(cs: seq<Child>, at: Path)
    requires cs != []
    ensures |TarredAll(cs, at)| == |Tarred(cs[0].tree, at + [cs[0].name])| + |TarredAll(cs[1..], at)|
  {
  }

  lemma FirstChildAt(cs: seq<Child>, at: Path, q: Path)
    requires cs != []
    ensures ChildAt(cs, [cs[0].name] + q) == NodeAt(cs[0].tree, q) && at + ([cs[0].name] + q) == at + [cs[0].name] + q
  {
    assert ([cs[0].name] + q)[1..] == q;
  }

  lemma {:induction false} NamesOfChildren(cs: seq<Child>, at: Path, k: nat) returns (q: Path)
    requires PathOk(at) && ChildrenOk(cs) && k < |TarredAll(cs, at)|
    ensures q != [] && ChildAt(cs, q).Some? && TarredAll(cs, at)[k].name == NameOf(at + q)
    decreases cs, 1
  {
    var c, n := cs[0], |Tarred(cs[0].tree, at + [cs[0].name])|;
    ChildrenTail(cs);
    TarredLength(cs, at);
    if k < n {
      TarredFirst(cs, at, k);
      var rest := NamesOfPaths(c.tree, at + [c.name], k);
      q := [c.name] + rest;
      FirstChildAt(cs, at, rest);
    } else {
      TarredLater(cs, at, k - n);
      q := NamesOfChildren(cs[1..], at, k - n);
      NamedChild(cs[1..], q);
    }
  }

  lemma {:induction false} PathsHaveNames(t: Tree, at: Path, q: Path) returns (k: nat)
    requires PathOk(at) && TreeOk(t) && NodeAt(t, q).Some?
    ensures k < |Tarred(t, at)| && Tarred(t, at)[k].name == NameOf(at + q)
    decreases t, 0
  {
    if q == [] {
      k := 0;
      assert at + q == at;
    } else {
      k := ChildrenHaveNames(t.children, at, q);
      k := k + 1;
    }
  }

  lemma {:induction false} ChildrenHaveNames(cs: seq<Child>, at: Path, q: Path) returns (k: nat)
    requires PathOk(at) && ChildrenOk(cs) && q != [] && ChildAt(cs, q).Some?
    ensures k < |TarredAll(cs, at)| && TarredAll(cs, at)[k].name == NameOf(at + q)
    decreases cs, 1
  {
    var c := cs[0];
    ChildrenTail(cs);
    if c.name == q[0] {
      k := PathsHaveNames(c.tree, at + [c.name], q[1..]);
      assert at + [c.name] + q[1..] == at + q;
      TarredFirst(cs, at, k);
    } else {
      var j := ChildrenHaveNames(cs[1..], at, q);
      TarredLater(cs, at, j);
      k := |Tarred(c.tree, at + [c.name])| + j;
    }
  }

  lemma SameNamesAccepted(a: Tree, b: Tree, at: Path)
    requires PathOk(at) && TreeOk(a) && TreeOk(b) && SameShape(a, b) && Accepted(Tarred(a, at))
    ensures Accepted(Tarred(b, at))
  {
    forall k | 0 <= k < |Tarred(b, at)| ensures !Refused(Tarred(b, at)[k].name) {
      var q := NamesOfPaths(b, at, k);
      var j := PathsHaveNames(a, at, q);
    }
  }

  lemma StaysOutside(fs: Nodes, t: Tree, base: Path, x: Path)
    requires TreeOk(t) && x in fs && !(base <= x)
    ensures Lookup(DoneAll(fs, TreeOps(t, base)).0, x) == Lookup(fs, x)
  {
    var ops := TreeOps(t, base);
    forall k | 0 <= k < |ops| ensures !Hits(ops[k], x) { TreePlaces(t, base, k); }
    RestStays(fs, ops, x);
  }

  lemma MadeAlready(fs: Nodes, dest: Path, at: Path)
    requires dest in fs && fs[dest].Dir? && Parent(dest + at) in fs && fs[Parent(dest + at)].Dir?
    ensures Begins(fs, dest, at)
  {
  }

  lemma PlacesStay(fs: Nodes, dest: Path, t: Tree, at: Path)
    requires PathOk(dest) && PathOk(at) && TreeOk(t) && (at == [] ==> t.Branch?) && Untarred(fs, dest, Tarred(t, at)).1
    ensures Begins(Untarred(fs, dest, Tarred(t, at)).0, dest, at)
  {
    var ready, base := Prepared(fs, dest, at), dest + at;
    var out := Untarred(fs, dest, Tarred(t, at)).0;
    UntarOverSucceedsExactly(fs, dest, t, at);
    DestinationMade(fs, dest, at);
    assert base + [] == base && (at == [] ==> base == dest);
    if at == [] { TreeWins(ready, t, base, []); } else { StaysOutside(ready, t, base, dest); }
    if base != [] { StaysOutside(ready, t, base, Parent(base)); }
    MadeAlready(out, dest, at);
  }

  /** So a newer tree unpacked over an older one of the same shape succeeds, and takes its place. */
  lemma NewerReplacesOlder(fs: Nodes, dest: Path, older: Tree, newer: Tree, at: Path, q: Path)
    requires PathOk(dest) && PathOk(at) && TreeOk(older) && TreeOk(newer) && SameShape(older, newer) && (at == [] ==> older.Branch?)
    requires Untarred(fs, dest, Tarred(older, at)).1
    ensures var out := Untarred(fs, dest, Tarred(older, at)).0;
            && Untarred(out, dest, Tarred(newer, at)).1
            && Lookup(Untarred(out, dest, Tarred(newer, at)).0, dest + at + q)
               == if NodeAt(newer, q).Some? then NodeAt(newer, q) else Lookup(fs, dest + at + q)
  {
    var out, base := Untarred(fs, dest, Tarred(older, at)).0, dest + at;
    UntarOverSucceedsExactly(fs, dest, older, at);
    assert Agree(NodeAt(older, []), NodeAt(newer, []));
    SameNamesAccepted(older, newer, at);
    PlacesStay(fs, dest, older, at);
    forall x ensures Agree(NodeAt(newer, x), Lookup(out, base + x)) {
      UntarOverRestores(fs, dest, older, at, x);
      assert Agree(NodeAt(older, x), NodeAt(newer, x));
    }
    UntarOverSucceedsExactly(out, dest, newer, at);
    UntarOverRestores(fs, dest, older, at, q);
    UntarOverRestores(out, dest, newer, at, q);
  }
}
