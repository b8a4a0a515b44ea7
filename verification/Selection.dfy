/** What the walk over a workspace selects, and how the patterns change it. */
module Selections {
  import opened Options
  import opened PathFilters
  import Text
  import opened Workspaces

  // ---------------------------------------------------------------- one path, one file

  /** Names as a file system has them: not empty, no separator, no two alike in a directory. */
  ghost predicate WellNamed(e: Entry) {
    e.Dir? ==> WellNamedAll(e.children)
  }

  ghost predicate WellNamedAll(es: seq<Entry>) {
    && (forall i :: 0 <= i < |es| ==> NameOk(es[i].name) && WellNamed(es[i]))
    && (forall i, j :: 0 <= i < j < |es| ==> es[i].name != es[j].name)
  }

  predicate NameOk(name: string) {
    name != "" && name != "." && '/' !in name
  }

  /** `rel` is `at` or lies below it. */
  predicate Under(at: string, rel: string) {
    rel == at || at + "/" <= rel
  }

  /** A path under a name of a directory shows the name: it is what precedes the next separator. */
  lemma FirstName(base: string, name: string, rel: string)
    requires '/' !in name && Under(base + name, rel)
    ensures base <= rel && rel[|base|..][..Text.Index(rel[|base|..], '/')] == name
  {
    var rest := rel[|base|..];
    if rel == base + name {
      assert rest == name;
    } else {
      var at := base + name + "/";
      assert at[|base| + |name|] == '/' && at[|base|..|base| + |name|] == name;
      assert rest[..|name|] == name && rest[|name|] == '/';
      Text.IndexUnique(rest, '/', |name|);
    }
  }

  function Base(rel: string): string {
    if rel == "." then "" else rel + "/"
  }

  lemma BelowBase(rel: string, name: string)
    ensures Below(rel, name) == Base(rel) + name
  {
  }

  lemma UnderBelow(rel: string, name: string, at: string, path: string)
    requires at == Below(rel, name) && Under(at, path) && rel != "."
    ensures Under(rel, path)
  {
    assert rel + "/" <= at;
  }

  /** Every file under an entry has a path under that of the entry. */
  lemma {:induction false} LeavesUnder(e: Entry, rel: string, above: seq<Place>, l: Leaf)
    requires WellNamed(e) && rel != "." && l in Leaves(e, rel, above)
    ensures Under(rel, l.at.rel)
    decreases e, 0
  {
    match e
    case File(_, _) =>
    case Unreadable(_) =>
    case Dir(name, children) =>
      var i := LeafOfChild(children, rel, above + [Place(name, rel)], l);
      BelowNotDot(rel, children[i].name);
      LeavesUnder(children[i], Below(rel, children[i].name), above + [Place(name, rel)], l);
      UnderBelow(rel, children[i].name, Below(rel, children[i].name), l.at.rel);
  }

  lemma InEither(a: seq<Leaf>, b: seq<Leaf>, l: Leaf)
    ensures l in a + b <==> l in a || l in b
  {
  }

  lemma FirstOrLater(es: seq<Entry>, rel: string, above: seq<Place>, l: Leaf)
    requires l in LeavesOf(es, rel, above)
    ensures es != [] && (l in Leaves(es[0], Below(rel, es[0].name), above) || l in LeavesOf(es[1..], rel, above))
  {
    InEither(Leaves(es[0], Below(rel, es[0].name), above), LeavesOf(es[1..], rel, above), l);
  }

  lemma Suffix(es: seq<Entry>, k: nat)
    requires k < |es|
    ensures es[k..] != [] && es[k..][0] == es[k] && es[k..][1..] == es[k + 1..]
  {
  }

  lemma {:induction false} ChildFrom(es: seq<Entry>, k: nat, rel: string, above: seq<Place>, l: Leaf) returns (i: nat)
    requires k <= |es| && l in LeavesOf(es[k..], rel, above)
    ensures i < |es| && l in Leaves(es[i], Below(rel, es[i].name), above)
    decreases |es| - k
  {
    FirstOrLater(es[k..], rel, above, l);
    Suffix(es, k);
    if l in Leaves(es[k], Below(rel, es[k].name), above) {
      i := k;
    } else {
      i := ChildFrom(es, k + 1, rel, above, l);
    }
  }

  lemma LeafOfChild(es: seq<Entry>, rel: string, above: seq<Place>, l: Leaf) returns (i: nat)
    requires l in LeavesOf(es, rel, above)
    ensures i < |es| && l in Leaves(es[i], Below(rel, es[i].name), above)
  {
    assert es[0..] == es;
    i := ChildFrom(es, 0, rel, above, l);
  }

  ghost predicate DistinctPaths(ls: seq<Leaf>) {
    forall i, j :: 0 <= i < j < |ls| ==> ls[i].at.rel != ls[j].at.rel
  }

  lemma DistinctAppend(a: seq<Leaf>, b: seq<Leaf>)
    requires DistinctPaths(a) && DistinctPaths(b)
    requires forall x, y :: x in a && y in b ==> x.at.rel != y.at.rel
    ensures DistinctPaths(a + b)
  {
  }

  /** No two files of a workspace have the same path. */
  lemma {:induction false} PathsDistinct(e: Entry, rel: string, above: seq<Place>)
    requires WellNamed(e)
    ensures DistinctPaths(Leaves(e, rel, above))
    decreases e, 0
  {
    match e
    case File(_, _) =>
    case Unreadable(_) =>
    case Dir(name, children) => PathsDistinctAll(children, rel, above + [Place(name, rel)]);
  }

  lemma {:induction false} PathsDistinctAll(es: seq<Entry>, rel: string, above: seq<Place>)
    requires WellNamedAll(es)
    ensures DistinctPaths(LeavesOf(es, rel, above))
    decreases es, 1
  {
    if es != [] {
      var here, rest := Leaves(es[0], Below(rel, es[0].name), above), LeavesOf(es[1..], rel, above);
      assert forall i :: 0 <= i < |es[1..]| ==> es[1..][i] == es[i + 1];
      PathsDistinct(es[0], Below(rel, es[0].name), above);
      PathsDistinctAll(es[1..], rel, above);
      forall x, y | x in here && y in rest ensures x.at.rel != y.at.rel {
        var k := LeafOfChild(es[1..], rel, above, y);
        Apart(es[0], es[k + 1], rel, above, x, y);
      }
      DistinctAppend(here, rest);
    }
  }

  lemma BelowNotDot(rel: string, name: string)
    requires NameOk(name)
    ensures Below(rel, name) != "."
  {
  }

  lemma Apart(a: Entry, b: Entry, rel: string, above: seq<Place>, x: Leaf, y: Leaf)
    requires WellNamed(a) && WellNamed(b) && NameOk(a.name) && NameOk(b.name) && a.name != b.name
    requires x in Leaves(a, Below(rel, a.name), above) && y in Leaves(b, Below(rel, b.name), above)
    ensures x.at.rel != y.at.rel
  {
    BelowNotDot(rel, a.name);
    BelowNotDot(rel, b.name);
    LeavesUnder(a, Below(rel, a.name), above, x);
    LeavesUnder(b, Below(rel, b.name), above, y);
    BelowBase(rel, a.name);
    BelowBase(rel, b.name);
    FirstName(Base(rel), a.name, x.at.rel);
    FirstName(Base(rel), b.name, y.at.rel);
  }

  // ---------------------------------------------------------------- the selection

  const EMPTY: map<Kind, set<string>> := map[Config := {}, Model := {}, Code := {}, Doc := {}]

  /** The file of a workspace that has a path, if the rules let it in and it is of that kind. */
  ghost predicate Lands(r: Rules, root: Entry, kind: Kind, l: Leaf) {
    l in Leaves(root, ".", []) && Belongs(r, l) && KindOf(r.tables, l) == kind
  }

  /** The walk ends well if and only if all it meets is readable and the files that belong meet the limits together. Then a path is in one of
      the four sets if and only if it is the path of a file that belongs and is of that kind. */
  lemma WalkSelectsExactly(r: Rules, root: Entry, kind: Kind, rel: string)
    ensures Outcome(r, root, EMPTY).1.None? <==>
            && (forall l :: l in Leaves(root, ".", []) && Belongs(r, l) ==> l.readable && l.size <= 128_000_000_000)
            && |Picked(r, root)| <= 2048 && TotalSize(Picked(r, root)) <= 8_000_000_000_000
    ensures Outcome(r, root, EMPTY).1.None? ==> kind in Outcome(r, root, EMPTY).0.sets
    ensures Outcome(r, root, EMPTY).1.None? ==>
              (rel in Outcome(r, root, EMPTY).0.sets[kind] <==> exists l :: Lands(r, root, kind, l) && l.at.rel == rel)
  {
    var start := Haul(EMPTY, 0, 0);
    CollectedWithin(r.tables, Picked(r, root), start);
    forall l ensures l in Picked(r, root) <==> l in Leaves(root, ".", []) && Belongs(r, l) {
      ChosenExactly(r, Leaves(root, ".", []), l);
    }
    if Outcome(r, root, EMPTY).1.None? {
      CollectedSets(r.tables, Picked(r, root), start, kind, rel);
      if Among(r.tables, Picked(r, root), kind, rel) {
        var l :| l in Picked(r, root) && l.at.rel == rel && KindOf(r.tables, l) == kind;
        assert Lands(r, root, kind, l);
      }
    }
  }

  /** Each file that belongs lands in the set of its kind and in no other. */
  lemma EachInOneSet(r: Rules, root: Entry, l: Leaf, kind: Kind)
    requires WellNamed(root) && Outcome(r, root, EMPTY).1.None? && l in Leaves(root, ".", []) && Belongs(r, l)
    ensures kind in Outcome(r, root, EMPTY).0.sets
    ensures l.at.rel in Outcome(r, root, EMPTY).0.sets[kind] <==> kind == KindOf(r.tables, l)
  {
    WalkSelectsExactly(r, root, kind, l.at.rel);
    if kind == KindOf(r.tables, l) {
      assert Lands(r, root, kind, l);
    } else if other :| Lands(r, root, kind, other) && other.at.rel == l.at.rel {
      OneLeaf(root, l, other);
    }
  }

  /** Where a file ends up: the tables decide by its name, config before model before code before doc, and a file in
      none of them goes by its size. */
  lemma TablesThenSize(r: Rules, root: Entry, l: Leaf)
    requires WellNamed(root) && Outcome(r, root, EMPTY).1.None? && l in Leaves(root, ".", []) && Belongs(r, l)
    ensures var (t, name) := (r.tables, l.at.name);
            var sets := Outcome(r, root, EMPTY).0.sets;
            && Full(sets)
            && (l.at.rel in sets[Config] <==> t.config(name))
            && (l.at.rel in sets[Model] <==> !t.config(name) && (t.model(name) || (!t.code(name) && !t.doc(name) && l.size > 128_000_000)))
            && (l.at.rel in sets[Code] <==> !t.config(name) && !t.model(name) && (t.code(name) || (!t.doc(name) && l.size <= 128_000_000)))
            && (l.at.rel in sets[Doc] <==> !t.config(name) && !t.model(name) && !t.code(name) && t.doc(name))
  {
    EachInOneSet(r, root, l, Config);
    EachInOneSet(r, root, l, Model);
    EachInOneSet(r, root, l, Code);
    EachInOneSet(r, root, l, Doc);
  }

  /** A file that makes up no model: a config, or a document that is neither weights nor code. */
  predicate OnTheSide(t: Tables, name: string) {
    t.config(name) || (t.doc(name) && !t.model(name) && !t.code(name))
  }

  /** A workspace is turned down as having no model, code or dataset exactly when all that belongs is configs and
      documents: one file that no table knows is enough. */
  lemma NothingFoundExactly(r: Rules, root: Entry)
    requires Outcome(r, root, EMPTY).1.None?
    ensures Full(Outcome(r, root, EMPTY).0.sets)
    ensures Outcome(r, root, EMPTY).0.sets[Model] == {} && Outcome(r, root, EMPTY).0.sets[Code] == {} <==>
            forall l :: l in Leaves(root, ".", []) && Belongs(r, l) ==> OnTheSide(r.tables, l.at.name)
  {
    WalkSelectsExactly(r, root, Config, "");
    WalkSelectsExactly(r, root, Doc, "");
    WalkSelectsExactly(r, root, Model, "");
    WalkSelectsExactly(r, root, Code, "");
    var sets := Outcome(r, root, EMPTY).0.sets;
    if l :| l in Leaves(root, ".", []) && Belongs(r, l) && !OnTheSide(r.tables, l.at.name) {
      var kind := KindOf(r.tables, l);
      assert Lands(r, root, kind, l);
      WalkSelectsExactly(r, root, kind, l.at.rel);
      assert l.at.rel in sets[kind] && (kind == Model || kind == Code);
    } else {
      forall rel ensures rel !in sets[Model] && rel !in sets[Code] {
        WalkSelectsExactly(r, root, Model, rel);
        WalkSelectsExactly(r, root, Code, rel);
      }
    }
  }

  /** An entry that cannot be read ends the walk in an error whatever the patterns say of the entry itself: only an
      impassable directory above it helps, since a directory is listed before it is matched. */
  lemma UnreadableEndsTheWalk(r: Rules, root: Entry, l: Leaf)
    requires l in Leaves(root, ".", []) && !l.readable && forall d :: d in l.above ==> Passable(r, d)
    ensures Outcome(r, root, EMPTY).1.Some?
  {
    WalkSelectsExactly(r, root, Config, "");
    ChosenExactly(r, Leaves(root, ".", []), l);
  }

  lemma OneLeaf(root: Entry, a: Leaf, b: Leaf)
    requires WellNamed(root) && a in Leaves(root, ".", []) && b in Leaves(root, ".", []) && a.at.rel == b.at.rel
    ensures a == b
  {
    PathsDistinct(root, ".", []);
    var ls := Leaves(root, ".", []);
    var i :| 0 <= i < |ls| && ls[i] == a;
    var j :| 0 <= j < |ls| && ls[j] == b;
  }

  /** The root is matched too, as ".": an exclude pattern that matches it, as one for every name may, leaves nothing. */
  lemma ExcludedRootSelectsNothing(r: Rules, root: Entry)
    requires root.Dir? && Excluded(r, ".")
    ensures Picked(r, root) == [] && Outcome(r, root, EMPTY) == (Haul(EMPTY, 0, 0), None)
  {
    var here := Place(root.name, ".");
    assert here in [here] && !Passable(r, here);
    NoneBelowAny(r, root.children, ".", [] + [here]);
  }

  // ---------------------------------------------------------------- changing the patterns

  ghost predicate NoErrors(r: Rules) {
    Sane(r.glob, r.filter.excludes) && Sane(r.glob, r.filter.includes)
  }

  /** Which files belong, where every pattern gives an answer. A directory above the file must not match an exclude
      pattern, and one that the table of skippable names knows must match an include pattern or have one written below it;
      the file itself must not match an exclude pattern, and if the table knows it, it must match an include pattern. The
      names "." and ".." are never skipped. */
  lemma BelongsPlainly(r: Rules, l: Leaf)
    requires NoErrors(r)
    ensures var (glob, excludes, includes) := (r.glob, r.filter.excludes, r.filter.includes);
            Belongs(r, l) <==>
              && (forall d :: d in l.above ==>
                    && (forall p :: p in excludes ==> glob(p, d.rel) != Matched)
                    && (d.name != "." && d.name != ".." && r.tables.skips(d.name) ==>
                        exists p :: p in includes && (glob(p, d.rel) == Matched || d.rel + "/" <= p)))
              && (l.readable ==>
                    && (forall p :: p in excludes ==> glob(p, l.at.rel) != Matched)
                    && (l.at.name != "." && l.at.name != ".." && r.tables.skips(l.at.name) ==>
                        exists p :: p in includes && glob(p, l.at.rel) == Matched))
  {
    var (glob, excludes, includes) := (r.glob, r.filter.excludes, r.filter.includes);
    forall d ensures Passable(r, d) <==>
      && (forall p :: p in excludes ==> glob(p, d.rel) != Matched)
      && (d.name != "." && d.name != ".." && r.tables.skips(d.name) ==>
          exists p :: p in includes && (glob(p, d.rel) == Matched || d.rel + "/" <= p))
    {
      SaneMatches(glob, excludes, d.rel);
    }
    SaneMatches(glob, excludes, l.at.rel);
    SaneMatches(glob, includes, l.at.rel);
  }

  /** `wide` excludes no more and includes no less. */
  ghost predicate Wider(wide: Rules, r: Rules) {
    && wide.glob == r.glob && wide.tables == r.tables
    && (forall p :: p in wide.filter.excludes ==> p in r.filter.excludes)
    && (forall p :: p in r.filter.includes ==> p in wide.filter.includes)
  }

  /** An exclude pattern more never adds a file, and an include pattern more never removes one. */
  lemma MoreExcludesOrFewerIncludes(wide: Rules, r: Rules, l: Leaf)
    requires Wider(wide, r) && NoErrors(wide) && NoErrors(r) && Belongs(r, l)
    ensures Belongs(wide, l)
  {
    forall rel | Excluded(wide, rel) ensures Excluded(r, rel) {
      SaneMatches(r.glob, wide.filter.excludes, rel);
      SaneMatches(r.glob, r.filter.excludes, rel);
    }
    SaneMatches(r.glob, r.filter.includes, l.at.rel);
    SaneMatches(r.glob, wide.filter.includes, l.at.rel);
  }

  /** Among runs that end well, the same holds of each of the four sets. */
  lemma SetsGrow(wide: Rules, r: Rules, root: Entry, kind: Kind)
    requires Wider(wide, r) && NoErrors(wide) && NoErrors(r)
    requires Outcome(wide, root, EMPTY).1.None? && Outcome(r, root, EMPTY).1.None?
    ensures kind in Outcome(r, root, EMPTY).0.sets && kind in Outcome(wide, root, EMPTY).0.sets
    ensures Outcome(r, root, EMPTY).0.sets[kind] <= Outcome(wide, root, EMPTY).0.sets[kind]
  {
    WalkSelectsExactly(r, root, kind, "");
    WalkSelectsExactly(wide, root, kind, "");
    forall rel | rel in Outcome(r, root, EMPTY).0.sets[kind] ensures rel in Outcome(wide, root, EMPTY).0.sets[kind] {
      WalkSelectsExactly(r, root, kind, rel);
      var l :| Lands(r, root, kind, l) && l.at.rel == rel;
      MoreExcludesOrFewerIncludes(wide, r, l);
      assert Lands(wide, root, kind, l);
      WalkSelectsExactly(wide, root, kind, rel);
    }
  }

  /** Without that hypothesis an exclude pattern more can add a file: `p` passes the check of the filter, loses
      its separators, becomes malformed and hides every pattern after it. */
  lemma BrokenExcludeAddsFiles(r: Rules, p: string, l: Leaf)
    requires r.glob(p, "") != Malformed && forall path :: r.glob(TrimSeparators(p), path) == Malformed
    requires forall d :: d in l.above + [l.at] ==> !IsSkippable(r.tables, d.name)
    ensures FilterOf(r.glob, [p], []) == Ok(PathFilter([TrimSeparators(p)], []))
    ensures Belongs(r.(filter := r.filter.(excludes := [TrimSeparators(p)] + r.filter.excludes)), l)
  {
    var none: seq<string> := [];
    assert Trimmed([p]) == [TrimSeparators(p)] && Trimmed(none) == none;
    assert [p] + none == [p] && [p][1..] == none && Rejected(r.glob, [p]).None?;
    assert l.at in l.above + [l.at] && forall d :: d in l.above ==> d in l.above + [l.at];
  }

  // ---------------------------------------------------------------- naming a file

  /** The directories above a file: the root, then directories whose path and a separator begin the file's. */
  ghost predicate Trail(above: seq<Place>, rel: string) {
    && |above| > 0 && above[0].rel == "."
    && forall k :: 0 < k < |above| ==> above[k].rel + "/" <= rel
  }

  lemma {:induction false} LeavesTrail(e: Entry, rel: string, above: seq<Place>, l: Leaf)
    requires WellNamed(e) && l in Leaves(e, rel, above)
    requires above == [] ==> rel == "." && e.Dir?
    requires above != [] ==> above[0].rel == "." && rel != "." && forall k :: 0 < k < |above| ==> above[k].rel + "/" <= rel
    ensures Trail(l.above, l.at.rel) && above <= l.above
    ensures above == [] ==> l.above[0] == Place(e.name, ".")
    decreases e, 0
  {
    match e
    case File(_, _) =>
    case Unreadable(_) =>
    case Dir(name, children) =>
      var now := above + [Place(name, rel)];
      var i := LeafOfChild(children, rel, now, l);
      var next := Below(rel, children[i].name);
      BelowNotDot(rel, children[i].name);
      forall k | 0 < k < |now| ensures now[k].rel + "/" <= next {
        if k < |above| { assert above[k].rel + "/" <= rel <= next; }
      }
      LeavesTrail(children[i], next, now, l);
  }

  /** An include pattern without metacharacters matches the path it spells and no other. */
  ghost predicate Literal(glob: Glob, p: string) {
    forall path :: glob(p, path) == Matched <==> path == p
  }

  /** An entry named by a literal include belongs if and only if neither it nor a directory above it is excluded
      and the root is let in, which it is unless its own name is skippable. */
  lemma NamedFileBelongs(r: Rules, root: Entry, l: Leaf)
    requires WellNamed(root) && root.Dir? && l in Leaves(root, ".", []) && NoErrors(r)
    requires l.at.rel in r.filter.includes && Literal(r.glob, l.at.rel)
    ensures Belongs(r, l) <==>
              && (l.readable ==> !Excluded(r, l.at.rel)) && (forall d :: d in l.above ==> !Excluded(r, d.rel))
              && (IsSkippable(r.tables, root.name) ==> Leads(r.glob, r.filter.includes, "."))
  {
    LeavesTrail(root, ".", [], l);
    SaneMatches(r.glob, r.filter.includes, l.at.rel);
    forall d | d in l.above && d != l.above[0] ensures Leads(r.glob, r.filter.includes, d.rel) {
      var k :| 0 <= k < |l.above| && l.above[k] == d;
      assert d.rel + "/" <= l.at.rel;
    }
    assert l.above[0] in l.above && l.above[0] == Place(root.name, ".");
    assert forall d :: d in l.above && d != l.above[0] ==> (Passable(r, d) <==> !Excluded(r, d.rel));
  }
}
