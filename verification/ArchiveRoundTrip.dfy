/** `Untar` after `Tar`. */
module Archives {
  import opened Options
  import opened Text
  import opened Archiving

  /** A tree of regular files and directories. */
  datatype Tree = Leaf(mode: nat, data: seq<bv8>) | Branch(mode: nat, children: seq<Child>)

  datatype Child = Child(name: string, tree: Tree)

  ghost predicate TreeOk(t: Tree)
    decreases t, 0
  {
    t.Branch? ==> ChildrenOk(t.children)
  }

  ghost predicate ChildrenOk(cs: seq<Child>)
    decreases cs, 1
  {
    && (forall i :: 0 <= i < |cs| ==> NameOk(cs[i].name) && TreeOk(cs[i].tree))
    && (forall i, j :: 0 <= i < j < |cs| ==> cs[i].name != cs[j].name)
  }

  function NodeOf(t: Tree): Node {
    match t
    case Leaf(mode, data) => File(mode, data)
    case Branch(mode, _) => Dir(mode)
  }

  /** What a tree has at a path. */
  function NodeAt(t: Tree, q: Path): Option<Node>
    decreases t, 0
  {
    if q == [] then Some(NodeOf(t))
    else if t.Leaf? then None
    else ChildAt(t.children, q)
  }

  function ChildAt(cs: seq<Child>, q: Path): Option<Node>
    requires q != []
    decreases cs, 1
  {
    if cs == [] then None
    else if cs[0].name == q[0] then NodeAt(cs[0].tree, q[1..])
    else ChildAt(cs[1..], q)
  }

  // ---------------------------------------------------------------- packing

  /** The relative path of a header; the working directory itself is ".". */
  function NameOf(p: Path): string {
    if p == [] then "." else Join(p, "/")
  }

  function Header(t: Tree, at: Path): Entry {
    match t
    case Leaf(mode, data) => FileEntry(NameOf(at), mode, data)
    case Branch(mode, _) => DirEntry(NameOf(at), mode)
  }

  function Tarred(t: Tree, at: Path): seq<Entry>
    decreases t, 0
  {
    [Header(t, at)] + if t.Branch? then TarredAll(t.children, at) else []
  }

  function TarredAll(cs: seq<Child>, at: Path): seq<Entry>
    decreases cs, 1
  {
    if cs == [] then [] else Tarred(cs[0].tree, at + [cs[0].name]) + TarredAll(cs[1..], at)
  }

  /** `Tar`: a walk that writes each header, and behind a file's header its bytes. */
  method Tar(t: Tree, at: Path) returns (entries: seq<Entry>)
    ensures entries == Tarred(t, at)
    decreases t
  {
    entries := [Header(t, at)];
    if t.Branch? {
      assert t.children[0..] == t.children;
      for i := 0 to |t.children|
        invariant Tarred(t, at) == entries + TarredAll(t.children[i..], at)
      {
        assert t.children[i..][1..] == t.children[i + 1..];
        var below := Tar(t.children[i].tree, at + [t.children[i].name]);
        entries := entries + below;
      }
    }
  }

  // ---------------------------------------------------------------- names survive

  lemma SplitAtom(s: string)
    requires '/' !in s
    ensures Split(s) == [s]
  {
    assert Index(s, '/') == |s|;
  }

  lemma SplitNext(head: string, rest: string)
    requires '/' !in head
    ensures Split(head + "/" + rest) == [head] + Split(rest)
    ensures head != "" ==> (head + "/" + rest)[0] == head[0]
  {
    var s, k := head + "/" + rest, |head|;
    assert s[k] == '/' && s[..k] == head && s[k + 1..] == rest;
    IndexUnique(s, '/', k);
  }

  lemma {:induction false} SplitJoin(p: Path)
    requires p != [] && Shortest(p)
    ensures Split(Join(p, "/")) == p && Join(p, "/") != "" && Join(p, "/")[0] != '/'
    decreases |p|
  {
    if |p| == 1 {
      SplitAtom(p[0]);
    } else {
      var rest := p[1..];
      assert Shortest(rest) by { assert forall i :: 0 <= i < |rest| ==> rest[i] == p[i + 1]; }
      SplitJoin(rest);
      var tail := Join(rest, "/");
      SplitNext(p[0], tail);
      assert Join(p, "/") == p[0] + "/" + tail;
      assert p == [p[0]] + rest;
    }
  }

  lemma DotName()
    ensures Split(".") == ["."] && Reduce(["."], false) == []
  {
    assert Index(".", '/') == 1;
    assert ["."][..0] == [];
  }

  lemma NameKept(dest: Path, p: Path)
    requires PathOk(dest) && PathOk(p)
    ensures Clean(NameOf(p)) == NameOf(p) && Target(dest, NameOf(p)) == dest + p
  {
    if p == [] {
      DotName();
      assert (dest + ["."])[..|dest|] == dest;
      ReducePlain(dest, true);
      assert dest + p == dest;
    } else {
      SplitJoin(p);
      ReducePlain(p, false);
      ReducePlain(dest + p, true);
    }
  }

  // ---------------------------------------------------------------- unpacking a tree

  /** The file system with a tree laid over it. */
  function Laid(fs: Nodes, base: Path, t: Tree): Nodes
    decreases t, 0
  {
    var here := fs[base := NodeOf(t)];
    if t.Branch? then LaidAll(here, base, t.children) else here
  }

  function LaidAll(fs: Nodes, base: Path, cs: seq<Child>): Nodes
    decreases cs, 1
  {
    if cs == [] then fs else LaidAll(Laid(fs, base + [cs[0].name], cs[0].tree), base, cs[1..])
  }

  ghost predicate Accepted(es: seq<Entry>) {
    forall i :: 0 <= i < |es| ==> !Refused(es[i].name)
  }

  /** The place for a tree: its directory is there, and nothing is in its way. */
  ghost predicate Room(fs: Nodes, base: Path, t: Tree) {
    && Parent(base) in fs && fs[Parent(base)].Dir?
    && (base in fs ==> fs[base].Dir? && t.Branch?)
    && forall q :: q in fs ==> !(base < q)
  }

  lemma DirectoryMade(fs: Nodes, p: Path, mode: nat)
    requires Parent(p) in fs && fs[Parent(p)].Dir? && (p in fs ==> fs[p].Dir?)
    ensures MadeAll(fs, Parent(p), PARENT_MODE) == (fs, true)
    ensures MadeAll(fs, p, mode).1 && MadeAll(fs, p, mode).0[p := Dir(mode)] == fs[p := Dir(mode)]
  {
    if p !in fs { assert p != [] && MadeAll(fs, p[..|p| - 1], mode) == (fs, true); }
  }

  lemma HeaderUnpacks(fs: Nodes, dest: Path, t: Tree, at: Path)
    requires PathOk(dest) && PathOk(at) && !Refused(NameOf(at)) && Room(fs, dest + at, t)
    ensures Unpacked(fs, dest, Header(t, at)) == (fs[dest + at := NodeOf(t)], true)
  {
    NameKept(dest, at);
    DirectoryMade(fs, dest + at, t.mode);
  }

  lemma {:induction false} UnpackedAppend(fs: Nodes, dest: Path, a: seq<Entry>, b: seq<Entry>)
    ensures UnpackedAll(fs, dest, a + b) ==
            if UnpackedAll(fs, dest, a).1 then UnpackedAll(UnpackedAll(fs, dest, a).0, dest, b) else UnpackedAll(fs, dest, a)
    decreases |a|
  {
    if a == [] {
      assert a + b == b;
    } else {
      assert (a + b)[1..] == a[1..] + b;
      var (next, ok) := Unpacked(fs, dest, a[0]);
      if ok { UnpackedAppend(next, dest, a[1..], b); }
    }
  }

  /** Laying a tree touches nothing outside its place. */
  lemma {:induction false} LaidOutside(fs: Nodes, base: Path, t: Tree, x: Path)
    requires !(base <= x)
    ensures Lookup(Laid(fs, base, t), x) == Lookup(fs, x)
    decreases t, 0
  {
    if t.Branch? { LaidAllOutside(fs[base := NodeOf(t)], base, t.children, x); }
  }

  lemma {:induction false} LaidAllOutside(fs: Nodes, base: Path, cs: seq<Child>, x: Path)
    requires forall i :: 0 <= i < |cs| ==> !(base + [cs[i].name] <= x)
    ensures Lookup(LaidAll(fs, base, cs), x) == Lookup(fs, x)
    decreases cs, 1
  {
    if cs != [] {
      LaidOutside(fs, base + [cs[0].name], cs[0].tree, x);
      assert forall i :: 0 <= i < |cs[1..]| ==> cs[1..][i] == cs[i + 1];
      LaidAllOutside(Laid(fs, base + [cs[0].name], cs[0].tree), base, cs[1..], x);
    }
  }

  /** What is then at or below the place is the tree. */
  lemma {:induction false} LaidInside(fs: Nodes, base: Path, t: Tree, q: Path)
    requires TreeOk(t) && forall x :: x in fs ==> !(base < x)
    ensures Lookup(Laid(fs, base, t), base + q) == NodeAt(t, q)
    decreases t, 0
  {
    var here := fs[base := NodeOf(t)];
    if q == [] {
      assert base + q == base;
      if t.Branch? { LaidAllOutside(here, base, t.children, base); }
    } else {
      assert base < base + q && base + q != base;
      if t.Branch? { LaidAllInside(here, base, t.children, q); }
    }
  }

  lemma {:induction false} LaidAllInside(fs: Nodes, base: Path, cs: seq<Child>, q: Path)
    requires ChildrenOk(cs) && q != []
    requires forall i, x :: 0 <= i < |cs| && x in fs ==> !(base + [cs[i].name] <= x)
    requires base + q !in fs || forall i :: 0 <= i < |cs| ==> cs[i].name != q[0]
    ensures Lookup(LaidAll(fs, base, cs), base + q) == if base + q in fs then Some(fs[base + q]) else ChildAt(cs, q)
    decreases cs, 1
  {
    if cs == [] { return; }
    var c := cs[0];
    var next := Laid(fs, base + [c.name], c.tree);
    assert forall i :: 0 <= i < |cs[1..]| ==> cs[1..][i] == cs[i + 1];
    assert base + q == base + [q[0]] + q[1..];
    forall i, x | 0 <= i < |cs[1..]| && x in next ensures !(base + [cs[1..][i].name] <= x) {
      SiblingsApart(base, c.name, cs[i + 1].name, x);
      if !(base + [c.name] <= x) { LaidOutside(fs, base + [c.name], c.tree, x); }
    }
    if c.name == q[0] {
      LaidInside(fs, base + [c.name], c.tree, q[1..]);
      forall i | 0 <= i < |cs[1..]| ensures !(base + [cs[1..][i].name] <= base + q) { SiblingsApart(base, q[0], cs[i + 1].name, base + q); }
      LaidAllOutside(next, base, cs[1..], base + q);
    } else {
      SiblingsApart(base, q[0], c.name, base + q);
      LaidOutside(fs, base + [c.name], c.tree, base + q);
      LaidAllInside(next, base, cs[1..], q);
    }
  }

  lemma SiblingsApart(base: Path, a: string, b: string, x: Path)
    requires a != b
    ensures !(base + [a] <= x && base + [b] <= x)
  {
    assert base + [a] <= x ==> x[|base|] == (base + [a])[|base|];
    assert base + [b] <= x ==> x[|base|] == (base + [b])[|base|];
  }

  lemma UnpackedFirst(fs: Nodes, dest: Path, e: Entry, rest: seq<Entry>, next: Nodes)
    requires Unpacked(fs, dest, e) == (next, true)
    ensures UnpackedAll(fs, dest, [e] + rest) == UnpackedAll(next, dest, rest)
  {
    assert ([e] + rest)[1..] == rest;
  }

  ghost predicate NothingAt(fs: Nodes, base: Path, cs: seq<Child>) {
    forall i, x :: 0 <= i < |cs| && x in fs ==> !(base + [cs[i].name] <= x)
  }

  lemma NothingBelow(fs: Nodes, base: Path, node: Node, cs: seq<Child>)
    requires forall q :: q in fs ==> !(base < q)
    ensures NothingAt(fs[base := node], base, cs)
  {
    forall i | 0 <= i < |cs| ensures base < base + [cs[i].name] {}
  }

  /** Unpacking the entries of a tree lays the tree. */
  lemma {:induction false} UnpackLays(fs: Nodes, dest: Path, t: Tree, at: Path)
    requires PathOk(dest) && PathOk(at) && TreeOk(t) && Accepted(Tarred(t, at)) && Room(fs, dest + at, t)
    ensures UnpackedAll(fs, dest, Tarred(t, at)) == (Laid(fs, dest + at, t), true)
    decreases t, 0
  {
    var head, here := Header(t, at), fs[dest + at := NodeOf(t)];
    assert !Refused(head.name) by { assert Tarred(t, at)[0] == head; }
    HeaderUnpacks(fs, dest, t, at);
    if t.Branch? {
      var rest := TarredAll(t.children, at);
      AcceptedSplit([head], rest);
      NothingBelow(fs, dest + at, NodeOf(t), t.children);
      UnpackedFirst(fs, dest, head, rest, here);
      UnpackLaysAll(here, dest, t.children, at);
    } else {
      UnpackedFirst(fs, dest, head, [], here);
    }
  }

  lemma {:induction false} UnpackLaysAll(fs: Nodes, dest: Path, cs: seq<Child>, at: Path)
    requires PathOk(dest) && PathOk(at) && ChildrenOk(cs) && Accepted(TarredAll(cs, at))
    requires dest + at in fs && fs[dest + at].Dir?
    requires NothingAt(fs, dest + at, cs)
    ensures UnpackedAll(fs, dest, TarredAll(cs, at)) == (LaidAll(fs, dest + at, cs), true)
    decreases cs, 1
  {
    if cs == [] { return; }
    var c := cs[0];
    var here, rest := Tarred(c.tree, at + [c.name]), TarredAll(cs[1..], at);
    AcceptedSplit(here, rest);
    var base := dest + at + [c.name];
    assert dest + (at + [c.name]) == base && base[..|base| - 1] == dest + at;
    UnpackLays(fs, dest, c.tree, at + [c.name]);
    UnpackedAppend(fs, dest, here, rest);
    var next := Laid(fs, base, c.tree);
    assert forall i :: 0 <= i < |cs[1..]| ==> cs[1..][i] == cs[i + 1];
    LaidOutside(fs, base, c.tree, dest + at);
    forall i, x | 0 <= i < |cs[1..]| && x in next ensures !(dest + at + [cs[1..][i].name] <= x) {
      SiblingsApart(dest + at, c.name, cs[i + 1].name, x);
      if !(base <= x) { LaidOutside(fs, base, c.tree, x); }
    }
    UnpackLaysAll(next, dest, cs[1..], at);
  }

  lemma AcceptedSplit(a: seq<Entry>, b: seq<Entry>)
    requires Accepted(a + b)
    ensures Accepted(a) && Accepted(b)
  {
    forall i | 0 <= i < |a| ensures !Refused(a[i].name) { assert (a + b)[i] == a[i]; }
    forall i | 0 <= i < |b| ensures !Refused(b[i].name) { assert (a + b)[|a| + i] == b[i]; }
  }

  // ---------------------------------------------------------------- refusals

  lemma {:induction false} RefusedFails(fs: Nodes, dest: Path, es: seq<Entry>, i: nat)
    requires i < |es| && Refused(Clean(es[i].name))
    ensures !UnpackedAll(fs, dest, es).1
    decreases |es|
  {
    if i > 0 {
      var (next, ok) := Unpacked(fs, dest, es[0]);
      if ok {
        assert es[1..][i - 1] == es[i];
        RefusedFails(next, dest, es[1..], i - 1);
      }
    }
  }

  lemma {:induction false} TarredNames(t: Tree, at: Path, i: nat)
    requires TreeOk(t) && PathOk(at) && i < |Tarred(t, at)|
    ensures Clean(Tarred(t, at)[i].name) == Tarred(t, at)[i].name
    decreases t, 0
  {
    if i == 0 {
      NameKept([], at);
    } else {
      InSecond([Header(t, at)], TarredAll(t.children, at), i);
      TarredAllNames(t.children, at, i - 1);
    }
  }

  lemma InSecond(a: seq<Entry>, b: seq<Entry>, i: nat)
    requires |a| <= i < |a + b|
    ensures (a + b)[i] == b[i - |a|]
  {
  }

  lemma {:induction false} TarredAllNames(cs: seq<Child>, at: Path, i: nat)
    requires ChildrenOk(cs) && PathOk(at) && i < |TarredAll(cs, at)|
    ensures Clean(TarredAll(cs, at)[i].name) == TarredAll(cs, at)[i].name
    decreases cs, 1
  {
    var here := Tarred(cs[0].tree, at + [cs[0].name]);
    if i < |here| {
      TarredNames(cs[0].tree, at + [cs[0].name], i);
    } else {
      assert forall i :: 0 <= i < |cs[1..]| ==> cs[1..][i] == cs[i + 1];
      InSecond(here, TarredAll(cs[1..], at), i);
      TarredAllNames(cs[1..], at, i - |here|);
    }
  }

  lemma NameRelative(p: Path)
    requires PathOk(p)
    ensures !("/" <= NameOf(p))
  {
    if p != [] { SplitJoin(p); }
    assert NameOf(p)[0] != '/' && "/"[0] == '/';
  }

  lemma {:induction false} TarredRelative(t: Tree, at: Path, i: nat)
    requires TreeOk(t) && PathOk(at) && i < |Tarred(t, at)|
    ensures !("/" <= Tarred(t, at)[i].name)
    decreases t, 0
  {
    if i == 0 { NameRelative(at); } else { TarredAllRelative(t.children, at, i - 1); }
  }

  lemma {:induction false} TarredAllRelative(cs: seq<Child>, at: Path, i: nat)
    requires ChildrenOk(cs) && PathOk(at) && i < |TarredAll(cs, at)|
    ensures !("/" <= TarredAll(cs, at)[i].name)
    decreases cs, 1
  {
    var here := Tarred(cs[0].tree, at + [cs[0].name]);
    if i < |here| {
      TarredRelative(cs[0].tree, at + [cs[0].name], i);
    } else {
      assert forall i :: 0 <= i < |cs[1..]| ==> cs[1..][i] == cs[i + 1];
      TarredAllRelative(cs[1..], at, i - |here|);
    }
  }

  // ---------------------------------------------------------------- the round trip

  /** Every file and directory is in a directory. */
  ghost predicate Formed(fs: Nodes) {
    forall p :: p in fs && p != [] ==> Parent(p) in fs && fs[Parent(p)].Dir?
  }

  /** The destination is a directory or can be made one, and holds nothing. */
  ghost predicate EmptyPlace(fs: Nodes, dest: Path) {
    Formed(fs) && MadeAll(fs, dest, PARENT_MODE).1 && forall q :: q in fs ==> !(dest < q)
  }

  lemma {:induction false} MadeAllFormed(fs: Nodes, p: Path)
    requires Formed(fs) && MadeAll(fs, p, PARENT_MODE).1
    ensures Formed(MadeAll(fs, p, PARENT_MODE).0)
    ensures forall q :: q in MadeAll(fs, p, PARENT_MODE).0 ==> q in fs || q <= p
    decreases |p|
  {
    if p !in fs && p != [] {
      MadeAllFormed(fs, p[..|p| - 1]);
      MadeAllMakes(fs, p[..|p| - 1], PARENT_MODE);
    }
  }

  lemma {:induction false} MadeBelow(fs: Nodes, dest: Path, p: Path)
    requires dest in fs && fs[dest].Dir? && dest <= p && forall q :: q in fs ==> !(dest < q)
    ensures MadeAll(fs, p, PARENT_MODE).1
    decreases |p|
  {
    if p != dest {
      assert dest <= p[..|p| - 1];
      MadeBelow(fs, dest, p[..|p| - 1]);
    }
  }

  /** The file system when the first entry has made its directories. */
  function Prepared(fs: Nodes, dest: Path, at: Path): Nodes {
    MadeAll(MadeAll(fs, dest, PARENT_MODE).0, Parent(dest + at), PARENT_MODE).0
  }

  lemma PreparedRoom(fs: Nodes, dest: Path, at: Path, t: Tree)
    requires EmptyPlace(fs, dest) && (at == [] ==> t.Branch?)
    ensures MadeAll(MadeAll(fs, dest, PARENT_MODE).0, Parent(dest + at), PARENT_MODE).1 && Room(Prepared(fs, dest, at), dest + at, t)
  {
    var made, up := MadeAll(fs, dest, PARENT_MODE).0, Parent(dest + at);
    MadeAllMakes(fs, dest, PARENT_MODE);
    MadeAllFormed(fs, dest);
    if at == [] {
      assert dest + at == dest;
      assert dest != [] ==> Parent(dest) in made;
    } else {
      assert up == dest + at[..|at| - 1];
      assert forall q :: q in made ==> !(dest < q);
      MadeBelow(made, dest, up);
    }
    MadeAllMakes(made, up, PARENT_MODE);
    MadeAllFormed(made, up);
  }

  lemma MadeTwice(fs: Nodes, p: Path)
    requires MadeAll(fs, p, PARENT_MODE).1
    ensures MadeAll(MadeAll(fs, p, PARENT_MODE).0, p, PARENT_MODE) == (MadeAll(fs, p, PARENT_MODE).0, true)
  {
    MadeAllMakes(fs, p, PARENT_MODE);
  }

  /** Making the directories above the tree beforehand changes nothing. */
  lemma ParentFirst(fs: Nodes, dest: Path, t: Tree, at: Path)
    requires PathOk(dest) && PathOk(at) && !Refused(NameOf(at)) && MadeAll(fs, Parent(dest + at), PARENT_MODE).1
    ensures UnpackedAll(fs, dest, Tarred(t, at)) == UnpackedAll(MadeAll(fs, Parent(dest + at), PARENT_MODE).0, dest, Tarred(t, at))
  {
    NameKept(dest, at);
    MadeTwice(fs, Parent(dest + at));
    var up := MadeAll(fs, Parent(dest + at), PARENT_MODE).0;
    assert Tarred(t, at)[0] == Header(t, at);
    assert Unpacked(fs, dest, Header(t, at)) == Unpacked(up, dest, Header(t, at));
  }

  /** Unpacking a packed tree into an empty place succeeds if and only if no relative path holds ".." and none
      starts with ":\". */
  lemma {:induction false} UntarSucceedsExactly(fs: Nodes, dest: Path, t: Tree, at: Path)
    requires PathOk(dest) && PathOk(at) && TreeOk(t) && EmptyPlace(fs, dest) && (at == [] ==> t.Branch?)
    ensures Untarred(fs, dest, Tarred(t, at)).1 <==> Accepted(Tarred(t, at))
    ensures Untarred(fs, dest, Tarred(t, at)).1 ==> Untarred(fs, dest, Tarred(t, at)).0 == Laid(Prepared(fs, dest, at), dest + at, t)
    ensures Accepted(Tarred(t, at)) <==> forall i :: 0 <= i < |Tarred(t, at)| ==> Tellable(Tarred(t, at)[i].name)
  {
    var made, es := MadeAll(fs, dest, PARENT_MODE).0, Tarred(t, at);
    PreparedRoom(fs, dest, at, t);
    forall i | 0 <= i < |es| ensures Refused(es[i].name) <==> !Tellable(es[i].name) {
      TarredNames(t, at, i);
      TarredRelative(t, at, i);
    }
    if Accepted(es) {
      assert es[0] == Header(t, at);
      ParentFirst(made, dest, t, at);
      UnpackLays(Prepared(fs, dest, at), dest, t, at);
    } else {
      var i :| 0 <= i < |es| && Refused(es[i].name);
      TarredNames(t, at, i);
      RefusedFails(made, dest, es, i);
    }
  }

  predicate Tellable(name: string) {
    !HasDotDot(name) && !(":\\" <= name)
  }

  /** `out` holds the tree at `base`: at every relative path the same file or directory with the same mode and
      contents, and nothing else. Beside it there are only new directories above it. */
  ghost predicate Restores(fs: Nodes, out: Nodes, base: Path, t: Tree) {
    && (forall q :: Lookup(out, base + q) == NodeAt(t, q))
    && (forall x :: !(base <= x) ==> Lookup(out, x) == Lookup(fs, x) || (x < base && Lookup(out, x) == Some(Dir(0x1ED))))
  }

  lemma LaidRestores(fs: Nodes, dest: Path, t: Tree, at: Path)
    requires TreeOk(t) && Room(Prepared(fs, dest, at), dest + at, t)
    ensures Restores(fs, Laid(Prepared(fs, dest, at), dest + at, t), dest + at, t)
  {
    var base, ready := dest + at, Prepared(fs, dest, at);
    forall q ensures Lookup(Laid(ready, base, t), base + q) == NodeAt(t, q) { LaidInside(ready, base, t, q); }
    forall x | !(base <= x)
      ensures Lookup(Laid(ready, base, t), x) == Lookup(fs, x) || (x < base && Lookup(Laid(ready, base, t), x) == Some(Dir(PARENT_MODE)))
    {
      LaidOutside(ready, base, t, x);
      PreparedOutside(fs, dest, at, x);
    }
  }

  /** Unpacking a packed tree into an empty place restores the tree, if it succeeds. */
  lemma {:induction false} UntarRestoresTar(fs: Nodes, dest: Path, t: Tree, at: Path)
    requires PathOk(dest) && PathOk(at) && TreeOk(t) && EmptyPlace(fs, dest) && (at == [] ==> t.Branch?)
    requires Untarred(fs, dest, Tarred(t, at)).1
    ensures Restores(fs, Untarred(fs, dest, Tarred(t, at)).0, dest + at, t)
  {
    PreparedRoom(fs, dest, at, t);
    UntarSucceedsExactly(fs, dest, t, at);
    LaidRestores(fs, dest, t, at);
  }

  lemma {:induction false} MadeAllAt(fs: Nodes, p: Path, x: Path)
    ensures Lookup(MadeAll(fs, p, PARENT_MODE).0, x) == Lookup(fs, x) || (x <= p && Lookup(MadeAll(fs, p, PARENT_MODE).0, x) == Some(Dir(PARENT_MODE)))
    decreases |p|
  {
    if p !in fs && p != [] { MadeAllAt(fs, p[..|p| - 1], x); }
  }

  lemma PreparedOutside(fs: Nodes, dest: Path, at: Path, x: Path)
    requires !(dest + at <= x)
    ensures Lookup(Prepared(fs, dest, at), x) == Lookup(fs, x) || (x < dest + at && Lookup(Prepared(fs, dest, at), x) == Some(Dir(PARENT_MODE)))
  {
    MadeAllAt(fs, dest, x);
    MadeAllAt(MadeAll(fs, dest, PARENT_MODE).0, Parent(dest + at), x);
    if x <= dest { assert x <= dest + at; }
    if x <= Parent(dest + at) { assert x <= dest + at; }
  }
}
