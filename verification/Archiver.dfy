/** `pkg/archiver/archiver.go`: a tree as a list of entries, and entries unpacked below a directory. */
module Archiving {
  import opened Options
  import opened Text

  // ---------------------------------------------------------------- paths

  type Path = seq<string>

  function Split(s: string): seq<string>
    decreases |s|
  {
    var k := Index(s, '/');
    if k == |s| then [s] else [s[..k]] + Split(s[k + 1..])
  }

  function Push(out: Path, c: string, rooted: bool): Path {
    if c == "" || c == "." then out
    else if c != ".." then out + [c]
    else if out != [] && out[|out| - 1] != ".." then out[..|out| - 1]
    else if rooted then out
    else out + [c]
  }

  /** The components left after "", "." and ".." have been worked off, left to right. */
  function Reduce(parts: seq<string>, rooted: bool): Path
    decreases |parts|
  {
    if parts == [] then [] else Push(Reduce(parts[..|parts| - 1], rooted), parts[|parts| - 1], rooted)
  }

  /** `filepath.Clean`. */
  function Clean(name: string): string {
    var rooted := "/" <= name;
    var parts := Reduce(Split(name), rooted);
    if rooted then "/" + Join(parts, "/") else if parts == [] then "." else Join(parts, "/")
  }

  /** `filepath.Join` of a directory, given by its components, and a name. */
  function Target(dest: Path, name: string): Path {
    Reduce(dest + Split(name), true)
  }

  predicate HasDotDot(s: string) {
    exists i :: 0 <= i < |s| - 1 && s[i] == '.' && s[i + 1] == '.'
  }

  predicate Refused(clean: string) {
    HasDotDot(clean) || "/" <= clean || ":\\" <= clean
  }

  predicate NameOk(c: string) {
    c != "" && c != "." && c != ".." && '/' !in c
  }

  predicate PathOk(p: Path) {
    forall i :: 0 <= i < |p| ==> NameOk(p[i])
  }

  /** Neither empty nor ".", nor holding a slash, and ".." only before everything else. */
  ghost predicate Shortest(parts: seq<string>) {
    && (forall i :: 0 <= i < |parts| ==> parts[i] != "" && parts[i] != "." && '/' !in parts[i])
    && (forall i :: 0 < i < |parts| && parts[i] == ".." ==> parts[i - 1] == "..")
  }

  // ---------------------------------------------------------------- the file system

  datatype Node = Dir(mode: nat) | File(mode: nat, data: seq<bv8>)

  type Nodes = map<Path, Node>

  const PARENT_MODE: nat := 0x1ED

  function Lookup(fs: Nodes, p: Path): Option<Node> {
    if p in fs then Some(fs[p]) else None
  }

  /** `os.MkdirAll`, and whether it succeeded. */
  function MadeAll(fs: Nodes, p: Path, mode: nat): (Nodes, bool)
    decreases |p|
  {
    if p in fs then (fs, fs[p].Dir?)
    else if p == [] then (fs[p := Dir(mode)], true)
    else
      var (up, ok) := MadeAll(fs, p[..|p| - 1], mode);
      if ok then (up[p := Dir(mode)], true) else (up, false)
  }

  function Parent(p: Path): Path {
    if p == [] then [] else p[..|p| - 1]
  }

  // ---------------------------------------------------------------- unpacking

  datatype Entry = DirEntry(name: string, mode: nat) | FileEntry(name: string, mode: nat, data: seq<bv8>) | OtherEntry(name: string)

  function Unpacked(fs: Nodes, dest: Path, e: Entry): (Nodes, bool) {
    var clean := Clean(e.name);
    if Refused(clean) then (fs, false)
    else
      var target := Target(dest, clean);
      var (up, ok) := MadeAll(fs, Parent(target), PARENT_MODE);
      if !ok then (up, false)
      else
        match e
        case OtherEntry(_) => (up, true)
        case DirEntry(_, mode) =>
          var (made, fine) := MadeAll(up, target, mode);
          if fine then (made[target := Dir(mode)], true) else (made, false)
        case FileEntry(_, mode, data) =>
          if target in up && up[target].Dir? then (up, false) else (up[target := File(mode, data)], true)
  }

  function UnpackedAll(fs: Nodes, dest: Path, es: seq<Entry>): (Nodes, bool)
    decreases |es|
  {
    if es == [] then (fs, true)
    else
      var (next, ok) := Unpacked(fs, dest, es[0]);
      if ok then UnpackedAll(next, dest, es[1..]) else (next, false)
  }

  /** `Untar`. */
  function Untarred(fs: Nodes, dest: Path, es: seq<Entry>): (Nodes, bool) {
    var (made, ok) := MadeAll(fs, dest, PARENT_MODE);
    if ok then UnpackedAll(made, dest, es) else (made, false)
  }

  class FileSystem {
    var nodes: Nodes

    method MkdirAll(p: Path, mode: nat) returns (ok: bool)
      modifies this
      ensures (nodes, ok) == MadeAll(old(nodes), p, mode)
      decreases |p|
    {
      if p in nodes {
        return nodes[p].Dir?;
      }
      if p != [] {
        ok := MkdirAll(p[..|p| - 1], mode);
        if !ok {
          return;
        }
      }
      nodes := nodes[p := Dir(mode)];
      return true;
    }

    method Untar(entries: seq<Entry>, dest: Path) returns (ok: bool)
      modifies this
      ensures (nodes, ok) == Untarred(old(nodes), dest, entries)
    {
      ok := MkdirAll(dest, PARENT_MODE);
      if !ok {
        return;
      }
      ghost var start := nodes;
      for i := 0 to |entries|
        invariant ok && UnpackedAll(start, dest, entries) == UnpackedAll(nodes, dest, entries[i..])
      {
        var header := entries[i];
        assert entries[i..][1..] == entries[i + 1..];
        var cleanPath := Clean(header.name);
        if Refused(cleanPath) {
          return false;
        }
        var targetPath := Target(dest, cleanPath);
        ok := MkdirAll(Parent(targetPath), PARENT_MODE);
        if !ok {
          return;
        }
        match header {
          case DirEntry(_, mode) =>
            ok := MkdirAll(targetPath, mode);
            if !ok {
              return;
            }
            nodes := nodes[targetPath := Dir(mode)];
          case FileEntry(_, mode, data) =>
            if targetPath in nodes && nodes[targetPath].Dir? {
              return false;
            }
            nodes := nodes[targetPath := File(mode, data)];
          case OtherEntry(_) =>
        }
      }
    }
  }

  // ---------------------------------------------------------------- nothing outside the destination

  lemma {:induction false} SplitParts(s: string, c: string)
    requires c in Split(s)
    ensures '/' !in c
    ensures HasDotDot(c) ==> HasDotDot(s)
    decreases |s|
  {
    var k := Index(s, '/');
    if k == |s| {
      assert s[..k] == s;
    } else if c in Split(s[k + 1..]) {
      SplitParts(s[k + 1..], c);
      if HasDotDot(c) {
        var i :| 0 <= i < |s[k + 1..]| - 1 && s[k + 1..][i] == '.' && s[k + 1..][i + 1] == '.';
        assert s[k + 1 + i] == '.' && s[k + 1 + i + 1] == '.';
      }
    } else if HasDotDot(c) {
      var i :| 0 <= i < |c| - 1 && c[i] == '.' && c[i + 1] == '.';
      assert s[i] == '.' && s[i + 1] == '.';
    }
  }

  predicate NoDotDot(parts: seq<string>) {
    forall i :: 0 <= i < |parts| ==> parts[i] != ".."
  }

  lemma DotDotHasDotDot()
    ensures HasDotDot("..")
  {
    var s := "..";
    assert s[0] == '.' && s[1] == '.';
  }

  lemma {:induction false} ReducePlain(p: Path, rooted: bool)
    requires PathOk(p)
    ensures Reduce(p, rooted) == p
    decreases |p|
  {
    if p != [] {
      assert forall i :: 0 <= i < |p| - 1 ==> p[..|p| - 1][i] == p[i];
      ReducePlain(p[..|p| - 1], rooted);
      assert p == p[..|p| - 1] + [p[|p| - 1]] && NameOk(p[|p| - 1]);
    }
  }

  /** Without "..", reducing only adds components. */
  lemma {:induction false} ReduceGrows(dest: Path, parts: seq<string>)
    requires PathOk(dest) && NoDotDot(parts)
    ensures dest <= Reduce(dest + parts, true)
    decreases |parts|
  {
    if parts == [] {
      assert dest + parts == dest;
      ReducePlain(dest, true);
    } else {
      var before := parts[..|parts| - 1];
      assert (dest + parts)[..|dest + parts| - 1] == dest + before;
      assert forall i :: 0 <= i < |before| ==> before[i] == parts[i];
      ReduceGrows(dest, before);
      assert parts[|parts| - 1] != "..";
    }
  }

  lemma PartsNotDotDot(clean: string)
    requires !HasDotDot(clean)
    ensures NoDotDot(Split(clean))
  {
    DotDotHasDotDot();
    forall i | 0 <= i < |Split(clean)| ensures Split(clean)[i] != ".." { SplitParts(clean, Split(clean)[i]); }
  }

  /** A name that is not refused is unpacked at the destination or below it. */
  lemma TargetInside(dest: Path, name: string)
    requires PathOk(dest) && !Refused(Clean(name))
    ensures dest <= Target(dest, Clean(name))
  {
    PartsNotDotDot(Clean(name));
    ReduceGrows(dest, Split(Clean(name)));
  }

  /** Only at or below `dest` does `after` differ from `fs`, but for missing directories above it. */
  ghost predicate Inside(fs: Nodes, dest: Path, after: Nodes) {
    forall p :: !(dest <= p) ==> Lookup(after, p) == Lookup(fs, p) || (p <= dest && p !in fs && p in after && after[p] == Dir(0x1ED))
  }

  lemma InsideTwice(a: Nodes, b: Nodes, c: Nodes, dest: Path)
    requires Inside(a, dest, b) && Inside(b, dest, c)
    ensures Inside(a, dest, c)
  {
  }

  lemma InsideSet(fs: Nodes, dest: Path, p: Path, n: Node)
    requires dest <= p
    ensures Inside(fs, dest, fs[p := n])
  {
  }

  lemma {:induction false} MadeAllInside(fs: Nodes, dest: Path, p: Path, mode: nat)
    requires p <= dest || dest <= p
    requires mode == PARENT_MODE || (dest <= p && (p == [] || Parent(p) in fs))
    ensures Inside(fs, dest, MadeAll(fs, p, mode).0)
    decreases |p|
  {
    if p !in fs && p != [] {
      var up := p[..|p| - 1];
      if up !in fs {
        assert up <= dest || dest <= up;
        MadeAllInside(fs, dest, up, mode);
      }
    }
  }

  lemma {:induction false} MadeAllMakes(fs: Nodes, p: Path, mode: nat)
    ensures MadeAll(fs, p, mode).1 ==> p in MadeAll(fs, p, mode).0 && MadeAll(fs, p, mode).0[p].Dir?
    ensures forall q :: q in fs ==> q in MadeAll(fs, p, mode).0 && MadeAll(fs, p, mode).0[q] == fs[q]
    decreases |p|
  {
    if p !in fs && p != [] { MadeAllMakes(fs, p[..|p| - 1], mode); }
  }

  lemma UnpackedInside(fs: Nodes, dest: Path, e: Entry)
    requires PathOk(dest)
    ensures Inside(fs, dest, Unpacked(fs, dest, e).0)
  {
    if Refused(Clean(e.name)) { return; }
    var target := Target(dest, Clean(e.name));
    TargetInside(dest, e.name);
    var (up, ok) := MadeAll(fs, Parent(target), PARENT_MODE);
    MadeAllInside(fs, dest, Parent(target), PARENT_MODE);
    MadeAllMakes(fs, Parent(target), PARENT_MODE);
    if ok {
      match e
      case OtherEntry(_) =>
      case DirEntry(_, mode) =>
        MadeAllInside(up, dest, target, mode);
        InsideTwice(fs, up, MadeAll(up, target, mode).0, dest);
        InsideSet(MadeAll(up, target, mode).0, dest, target, Dir(mode));
        InsideTwice(fs, MadeAll(up, target, mode).0, MadeAll(up, target, mode).0[target := Dir(mode)], dest);
      case FileEntry(_, mode, data) =>
        InsideSet(up, dest, target, File(mode, data));
        InsideTwice(fs, up, up[target := File(mode, data)], dest);
    }
  }

  lemma {:induction false} UnpackedAllInside(fs: Nodes, dest: Path, es: seq<Entry>)
    requires PathOk(dest)
    ensures Inside(fs, dest, UnpackedAll(fs, dest, es).0)
    decreases |es|
  {
    if es != [] {
      UnpackedInside(fs, dest, es[0]);
      var (next, ok) := Unpacked(fs, dest, es[0]);
      if ok {
        UnpackedAllInside(next, dest, es[1..]);
        InsideTwice(fs, next, UnpackedAll(next, dest, es[1..]).0, dest);
      }
    }
  }

  /** For every archive, unpacked to the end or not, whatever was written lies at or below the destination;
      above it only missing directories were made. */
  lemma UntarStaysInside(fs: Nodes, dest: Path, es: seq<Entry>)
    requires PathOk(dest)
    ensures Inside(fs, dest, Untarred(fs, dest, es).0)
  {
    var (made, ok) := MadeAll(fs, dest, PARENT_MODE);
    MadeAllInside(fs, dest, dest, PARENT_MODE);
    if ok {
      UnpackedAllInside(made, dest, es);
      InsideTwice(fs, made, UnpackedAll(made, dest, es).0, dest);
    }
  }
}
