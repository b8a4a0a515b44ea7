/** Cleaned names: `filepath.Clean`, and where a name leads. */
module ArchiveNames {
  import opened Text
  import opened Archiving
  import opened Archives

  /** One component: stay, up, but not above the root, or down. */
  function Stride(at: Path, c: string): Path {
    if c == "" || c == "." then at
    else if c == ".." then Parent(at)
    else at + [c]
  }

  /** Component by component from a directory. */
  function Walk(at: Path, parts: seq<string>): Path
    decreases |parts|
  {
    if parts == [] then at else Walk(Stride(at, parts[0]), parts[1..])
  }

  lemma {:induction false} WalkAppend(at: Path, a: seq<string>, b: seq<string>)
    ensures Walk(at, a + b) == Walk(Walk(at, a), b)
    decreases |a|
  {
    if a == [] {
      assert a + b == b;
    } else {
      assert (a + b)[1..] == a[1..] + b;
      WalkAppend(Stride(at, a[0]), a[1..], b);
    }
  }

  lemma WalkSnoc(at: Path, a: seq<string>, c: string)
    ensures Walk(at, a + [c]) == Stride(Walk(at, a), c)
  {
    WalkAppend(at, a, [c]);
    assert [c][1..] == [];
    assert Walk(Stride(Walk(at, a), c), []) == Stride(Walk(at, a), c);
  }

  lemma ShortestPush(out: Path, c: string, rooted: bool)
    requires Shortest(out) && '/' !in c
    ensures Shortest(Push(out, c, rooted))
  {
  }

  lemma {:induction false} ReduceShortest(parts: seq<string>, rooted: bool)
    requires forall c :: c in parts ==> '/' !in c
    ensures Shortest(Reduce(parts, rooted))
    decreases |parts|
  {
    if parts != [] {
      ReduceShortest(parts[..|parts| - 1], rooted);
      ShortestPush(Reduce(parts[..|parts| - 1], rooted), parts[|parts| - 1], rooted);
    }
  }

  /** Taking a component up again is going up. */
  lemma PushWalks(at: Path, out: Path, c: string)
    requires Shortest(out)
    ensures Walk(at, Push(out, c, false)) == Stride(Walk(at, out), c)
  {
    WalkSnoc(at, out, c);
    if c == ".." && out != [] && out[|out| - 1] != ".." {
      WalkSnoc(at, out[..|out| - 1], out[|out| - 1]);
      assert out == out[..|out| - 1] + [out[|out| - 1]];
    }
  }

  lemma ReduceSnoc(before: seq<string>, c: string, rooted: bool)
    ensures Reduce(before + [c], rooted) == Push(Reduce(before, rooted), c, rooted)
  {
    assert (before + [c])[..|before|] == before;
  }

  lemma ReduceWalksNext(at: Path, before: seq<string>, c: string)
    requires Walk(at, Reduce(before, false)) == Walk(at, before) && Shortest(Reduce(before, false))
    ensures Walk(at, Reduce(before + [c], false)) == Walk(at, before + [c])
  {
    ReduceSnoc(before, c, false);
    PushWalks(at, Reduce(before, false), c);
    WalkSnoc(at, before, c);
  }

  lemma {:induction false} ReduceWalks(at: Path, parts: seq<string>)
    requires forall c :: c in parts ==> '/' !in c
    ensures Walk(at, Reduce(parts, false)) == Walk(at, parts)
    decreases |parts|
  {
    if parts != [] {
      var before, c := parts[..|parts| - 1], parts[|parts| - 1];
      ReduceWalks(at, before);
      ReduceShortest(before, false);
      ReduceWalksNext(at, before, c);
      assert before + [c] == parts;
    }
  }

  /** From the root there is nothing above. */
  lemma RootedWalksNext(before: seq<string>, c: string)
    requires Reduce(before, true) == Walk([], before) && NoDotDot(Reduce(before, true))
    ensures Reduce(before + [c], true) == Walk([], before + [c]) && NoDotDot(Reduce(before + [c], true))
  {
    ReduceSnoc(before, c, true);
    WalkSnoc([], before, c);
  }

  lemma {:induction false} RootedWalks(parts: seq<string>)
    ensures Reduce(parts, true) == Walk([], parts) && NoDotDot(Reduce(parts, true))
    decreases |parts|
  {
    if parts != [] {
      var before, c := parts[..|parts| - 1], parts[|parts| - 1];
      RootedWalks(before);
      RootedWalksNext(before, c);
      assert before + [c] == parts;
    }
  }

  lemma NoSlashes(name: string)
    ensures forall c :: c in Split(name) ==> '/' !in c
  {
    forall c | c in Split(name) ensures '/' !in c { SplitParts(name, c); }
  }

  /** Cleaning a relative name makes it as short as it can be: no empty component and no ".", and ".." only in front. And
      it leads, from any directory, where the name itself leads. */
  lemma CleanLeadsThere(at: Path, name: string)
    requires !("/" <= name)
    ensures Clean(name) == "." || Shortest(Split(Clean(name)))
    ensures Walk(at, Split(Clean(name))) == Walk(at, Split(name))
  {
    NoSlashes(name);
    var parts := Reduce(Split(name), false);
    ReduceShortest(Split(name), false);
    ReduceWalks(at, Split(name));
    if parts == [] {
      DotName();
      WalkSnoc(at, [], ".");
      assert [] + ["."] == ["."];
    } else {
      SplitJoin(parts);
    }
  }

  lemma {:induction false} WalkDown(at: Path, p: Path)
    requires PathOk(p)
    ensures Walk(at, p) == at + p
    decreases |p|
  {
    if p != [] {
      assert NameOk(p[0]) && forall i :: 0 <= i < |p[1..]| ==> p[1..][i] == p[i + 1];
      WalkDown(at + [p[0]], p[1..]);
    }
  }

  lemma RootedRefused(name: string)
    requires "/" <= name
    ensures Refused(Clean(name))
  {
    assert "/" <= Clean(name);
  }

  lemma TargetWalks(dest: Path, name: string)
    requires PathOk(dest)
    ensures Target(dest, name) == Walk(dest, Split(name))
  {
    RootedWalks(dest + Split(name));
    WalkAppend([], dest, Split(name));
    WalkDown([], dest);
    assert [] + dest == dest;
  }

  /** So an entry that is unpacked ends up where its name, as it stands in the archive, leads from the destination. */
  lemma UnpackedWhereNamed(dest: Path, name: string)
    requires PathOk(dest) && !Refused(Clean(name))
    ensures Target(dest, Clean(name)) == Walk(dest, Split(name))
  {
    if "/" <= name { RootedRefused(name); }
    TargetWalks(dest, Clean(name));
    CleanLeadsThere(dest, name);
  }
}
