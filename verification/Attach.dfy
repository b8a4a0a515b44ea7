/** `pkg/backend/attach.go`: replacing or adding the layer of one path. */
module Attaching {
  import opened Options
  import opened Ordering
  import opened Layers

  predicate Names(l: Layer, dest: string) {
    l.notes.Some? && (l.notes.value.filepath == dest || l.notes.value.legacy == dest)
  }

  predicate SameContent(a: Layer, b: Layer) {
    a.digest == b.digest && a.mediaType == b.mediaType
  }

  /** The place of the first layer for `dest`, or the length. */
  function FirstNamed(ls: seq<Layer>, dest: string): (k: nat)
    ensures k <= |ls| && (k < |ls| ==> Names(ls[k], dest)) && forall j :: 0 <= j < k ==> !Names(ls[j], dest)
  {
    if ls == [] || Names(ls[0], dest) then 0 else 1 + FirstNamed(ls[1..], dest)
  }

  function FirstSame(ls: seq<Layer>, l: Layer): (k: nat)
    ensures k <= |ls| && (k < |ls| ==> SameContent(ls[k], l)) && forall j :: 0 <= j < k ==> !SameContent(ls[j], l)
  {
    if ls == [] || SameContent(ls[0], l) then 0 else 1 + FirstSame(ls[1..], l)
  }

  function Delete(ls: seq<Layer>, k: nat): seq<Layer> {
    if k < |ls| then ls[..k] + ls[k + 1..] else ls
  }

  /** The layers without the one that is replaced: not the layer found, but the first of its digest and media type. */
  function Cleared(ls: seq<Layer>, dest: string): seq<Layer> {
    var k := FirstNamed(ls, dest);
    if k < |ls| then Delete(ls, FirstSame(ls, ls[k])) else ls
  }

  /** The layer list `Attach` computes; `None` is the error that the file already exists. */
  function Attached(ls: seq<Layer>, dest: string, force: bool, built: seq<Layer>): Option<seq<Layer>> {
    if FirstNamed(ls, dest) < |ls| && !force then None
    else Some(StableSort(LayerLess, Cleared(ls, dest) + built))
  }

  method Attach(source: seq<Layer>, dest: string, force: bool, built: seq<Layer>) returns (r: Option<seq<Layer>>)
    ensures r == Attached(source, dest, force, built)
  {
    var layers := source;
    var foundLayer: Option<Layer> := None;
    for i := 0 to |source|
      invariant foundLayer.None? && forall j :: 0 <= j < i ==> !Names(source[j], dest)
    {
      if Names(source[i], dest) {
        if !force {
          return None;
        }
        foundLayer := Some(source[i]);
        break;
      }
    }
    assert foundLayer.Some? <==> FirstNamed(source, dest) < |source|;
    assert foundLayer.Some? ==> foundLayer.value == source[FirstNamed(source, dest)];
    if foundLayer.Some? {
      for i := 0 to |layers|
        invariant layers == source && forall j :: 0 <= j < i ==> !SameContent(layers[j], foundLayer.value)
      {
        if SameContent(layers[i], foundLayer.value) {
          layers := Delete(layers, i);
          break;
        }
      }
    }
    layers := layers + built;
    r := Some(StableSort(LayerLess, layers));
  }

  // ---------------------------------------------------------------- what attaching promises

  /** The two annotations of a layer do not disagree. */
  predicate Agrees(l: Layer) {
    l.notes.Some? ==> l.notes.value.filepath == "" || l.notes.value.legacy == "" || l.notes.value.filepath == l.notes.value.legacy
  }

  /** One layer a path, one path a layer. */
  ghost predicate Proper(ls: seq<Layer>) {
    DistinctFilepaths(ls) && forall l :: l in ls ==> Agrees(l)
  }

  ghost predicate Holds(ls: seq<Layer>, path: string) {
    exists l :: l in ls && Filepath(l) == path
  }

  ghost predicate IsFor(l: Layer, dest: string) {
    dest != "" && Agrees(l) && Filepath(l) == dest
  }

  /** The layers seen as a map from paths, updated at `dest`: every layer for another path is there as it was,
      the new layer is there, nothing else is, no path has two layers, and the list is sorted. */
  ghost predicate Updates(ls: seq<Layer>, dest: string, built: Layer, out: seq<Layer>) {
    && Sorted(LayerLess, out) && Proper(out)
    && forall l :: l in out <==> l == built || (l in ls && Filepath(l) != dest)
  }

  /** No layer before the one for `dest` has its digest and media type. */
  ghost predicate NoTwin(ls: seq<Layer>, dest: string) {
    var k := FirstNamed(ls, dest);
    k < |ls| ==> forall i :: 0 <= i < k ==> !SameContent(ls[i], ls[k])
  }

  lemma NamesExactly(l: Layer, dest: string)
    requires Agrees(l) && dest != ""
    ensures Names(l, dest) <==> Filepath(l) == dest
  {
  }

  lemma FoundExactly(ls: seq<Layer>, dest: string)
    requires Proper(ls) && dest != ""
    ensures FirstNamed(ls, dest) < |ls| <==> Holds(ls, dest)
    ensures FirstNamed(ls, dest) < |ls| ==> Filepath(ls[FirstNamed(ls, dest)]) == dest
  {
    forall l | l in ls ensures Names(l, dest) <==> Filepath(l) == dest { NamesExactly(l, dest); }
  }

  lemma FirstSameAt(ls: seq<Layer>, k: nat)
    requires k < |ls| && forall i :: 0 <= i < k ==> !SameContent(ls[i], ls[k])
    ensures FirstSame(ls, ls[k]) == k
  {
  }

  // ---------------------------------------------------------------- lists with one layer a path

  ghost predicate WithoutOne(ls: seq<Layer>, k: nat, rest: seq<Layer>)
    requires k < |ls|
  {
    && |rest| == |ls| - 1
    && (forall i :: 0 <= i < k ==> rest[i] == ls[i])
    && (forall i :: k <= i < |rest| ==> rest[i] == ls[i + 1])
  }

  lemma DeletedElements(ls: seq<Layer>, k: nat)
    requires k < |ls|
    ensures WithoutOne(ls, k, Delete(ls, k))
  {
  }

  lemma DeletedOnce(ls: seq<Layer>, k: nat)
    requires k < |ls|
    ensures multiset(Delete(ls, k)) == multiset(ls) - multiset{ls[k]}
    ensures multiset(ls) == multiset(Delete(ls, k)) + multiset{ls[k]}
  {
    var a, b := ls[..k], ls[k + 1..];
    assert ls == a + ([ls[k]] + b);
    assert multiset(ls) == multiset(a) + multiset([ls[k]] + b);
    assert multiset([ls[k]] + b) == multiset{ls[k]} + multiset(b);
    assert multiset(a + b) == multiset(a) + multiset(b);
  }

  lemma DeletedDistinct(ls: seq<Layer>, k: nat, rest: seq<Layer>)
    requires DistinctFilepaths(ls) && k < |ls| && WithoutOne(ls, k, rest)
    ensures DistinctFilepaths(rest)
  {
    forall i, j | 0 <= i < j < |rest| ensures Filepath(rest[i]) != Filepath(rest[j]) {
      var i', j' := if i < k then i else i + 1, if j < k then j else j + 1;
      assert Filepath(ls[i']) != Filepath(ls[j']);
    }
  }

  lemma DeletedMember(ls: seq<Layer>, k: nat, rest: seq<Layer>, l: Layer)
    requires DistinctFilepaths(ls) && k < |ls| && WithoutOne(ls, k, rest)
    ensures l in rest <==> l in ls && Filepath(l) != Filepath(ls[k])
  {
    if i :| 0 <= i < |rest| && rest[i] == l {
      var i' := if i < k then i else i + 1;
      assert ls[i'] == l && Filepath(ls[i']) != Filepath(ls[k]);
    }
    if i :| 0 <= i < |ls| && ls[i] == l && i != k { assert rest[if i < k then i else i - 1] == l; }
  }

  /** Taking out one layer takes out one path. */
  lemma Deleted(ls: seq<Layer>, k: nat)
    requires DistinctFilepaths(ls) && k < |ls|
    ensures DistinctFilepaths(Delete(ls, k))
    ensures forall l :: l in Delete(ls, k) <==> l in ls && Filepath(l) != Filepath(ls[k])
  {
    DeletedElements(ls, k);
    DeletedDistinct(ls, k, Delete(ls, k));
    forall l ensures l in Delete(ls, k) <==> l in ls && Filepath(l) != Filepath(ls[k]) { DeletedMember(ls, k, Delete(ls, k), l); }
  }

  lemma Added(ls: seq<Layer>, built: Layer)
    requires DistinctFilepaths(ls) && !Holds(ls, Filepath(built))
    ensures DistinctFilepaths(ls + [built])
  {
    forall l | l in ls ensures Filepath(l) != Filepath(built) {}
  }

  /** Each layer is there once. */
  lemma OnceEach(ls: seq<Layer>, l: Layer)
    requires DistinctFilepaths(ls)
    ensures multiset(ls)[l] == if l in ls then 1 else 0
  {
    if k :| 0 <= k < |ls| && ls[k] == l {
      DeletedOnce(ls, k);
      Deleted(ls, k);
      assert l !in Delete(ls, k);
      assert l !in multiset(Delete(ls, k));
    } else {
      assert l !in multiset(ls);
    }
  }

  lemma SameLayers(xs: seq<Layer>, ys: seq<Layer>)
    requires DistinctFilepaths(xs) && DistinctFilepaths(ys) && forall l :: l in xs <==> l in ys
    ensures multiset(xs) == multiset(ys)
  {
    forall l ensures multiset(xs)[l] == multiset(ys)[l] {
      OnceEach(xs, l);
      OnceEach(ys, l);
    }
  }

  lemma SameMembers(xs: seq<Layer>, ys: seq<Layer>, l: Layer)
    requires multiset(xs) == multiset(ys)
    ensures l in xs <==> l in ys
  {
    assert l in xs <==> l in multiset(xs);
  }

  /** Two places for one path in one order are two places for one path in any order. */
  lemma TwiceAnywhere(xs: seq<Layer>, i: nat, j: nat, ys: seq<Layer>)
    requires multiset(xs) == multiset(ys) && i < j < |xs| && Filepath(xs[i]) == Filepath(xs[j])
    ensures !DistinctFilepaths(ys)
  {
    if DistinctFilepaths(ys) {
      SameMembers(xs, ys, xs[j]);
      var k :| 0 <= k < |ys| && ys[k] == xs[j];
      DeletedElements(xs, j);
      DeletedOnce(xs, j);
      DeletedOnce(ys, k);
      assert Delete(xs, j)[i] == xs[i];
      SameMembers(Delete(xs, j), Delete(ys, k), xs[i]);
      Deleted(ys, k);
    }
  }

  lemma PermutedDistinct(xs: seq<Layer>, ys: seq<Layer>)
    requires multiset(xs) == multiset(ys) && DistinctFilepaths(ys)
    ensures DistinctFilepaths(xs)
  {
    if i, j :| 0 <= i < j < |xs| && Filepath(xs[i]) == Filepath(xs[j]) { TwiceAnywhere(xs, i, j, ys); }
  }

  /** Sorting a list with one layer a path. */
  lemma SortKeeps(ls: seq<Layer>)
    ensures var s := StableSort(LayerLess, ls);
            Sorted(LayerLess, s) && multiset(s) == multiset(ls) && (DistinctFilepaths(s) <==> DistinctFilepaths(ls)) && forall l :: l in s <==> l in ls
  {
    LayerLessOrders();
    StableSortSorts(LayerLess, ls);
    var s := StableSort(LayerLess, ls);
    if DistinctFilepaths(ls) { PermutedDistinct(s, ls); }
    if DistinctFilepaths(s) { PermutedDistinct(ls, s); }
    forall l ensures l in s <==> l in ls { SameMembers(s, ls, l); }
  }

  /** The layers determine the sorted list. */
  lemma OneList(xs: seq<Layer>, ys: seq<Layer>)
    requires Sorted(LayerLess, xs) && Sorted(LayerLess, ys) && Proper(xs) && Proper(ys) && forall l :: l in xs <==> l in ys
    ensures xs == ys
  {
    SameLayers(xs, ys);
    SortedLayersUnique(LayerLess, xs, ys);
  }

  // ---------------------------------------------------------------- what attaching does

  lemma UpdatesSorted(ls: seq<Layer>, dest: string, built: Layer, rest: seq<Layer>)
    requires Proper(ls) && IsFor(built, dest) && DistinctFilepaths(rest)
    requires forall l :: l in rest <==> l in ls && Filepath(l) != dest
    ensures Updates(ls, dest, built, StableSort(LayerLess, rest + [built]))
  {
    Added(rest, built);
    SortKeeps(rest + [built]);
  }

  /** Without `force` a file is added exactly when the artifact has none for its path. */
  lemma UnforcedInserts(ls: seq<Layer>, dest: string, built: Layer)
    requires Proper(ls) && IsFor(built, dest)
    ensures Attached(ls, dest, false, [built]).None? <==> Holds(ls, dest)
    ensures !Holds(ls, dest) ==> Updates(ls, dest, built, Attached(ls, dest, false, [built]).value)
    ensures !Holds(ls, dest) ==> multiset(Attached(ls, dest, false, [built]).value) == multiset(ls) + multiset{built}
  {
    FoundExactly(ls, dest);
    if !Holds(ls, dest) {
      UpdatesSorted(ls, dest, built, ls);
      SortKeeps(ls + [built]);
    }
  }

  lemma ForcedUpdates(ls: seq<Layer>, dest: string, built: Layer)
    requires Proper(ls) && IsFor(built, dest) && NoTwin(ls, dest)
    ensures Attached(ls, dest, true, [built]).Some? && Updates(ls, dest, built, Attached(ls, dest, true, [built]).value)
  {
    FoundExactly(ls, dest);
    var k := FirstNamed(ls, dest);
    if k < |ls| {
      FirstSameAt(ls, k);
      Deleted(ls, k);
    }
    UpdatesSorted(ls, dest, built, Cleared(ls, dest));
  }

  /** With a twin the old layer stays beside the new one, and the twin's path is lost. */
  lemma TwinGoes(ls: seq<Layer>, dest: string, built: Layer)
    requires Proper(ls) && IsFor(built, dest) && !NoTwin(ls, dest)
    ensures Attached(ls, dest, true, [built]).Some? && !DistinctFilepaths(Attached(ls, dest, true, [built]).value)
    ensures exists l :: l in ls && Filepath(l) != dest && !Holds(Attached(ls, dest, true, [built]).value, Filepath(l))
  {
    FoundExactly(ls, dest);
    var k := FirstNamed(ls, dest);
    var t := FirstSame(ls, ls[k]);
    var all := Delete(ls, t) + [built];
    SortKeeps(all);
    Deleted(ls, t);
    DeletedElements(ls, t);
    assert Filepath(ls[t]) != Filepath(ls[k]);
    assert Filepath(all[k - 1]) == dest && Filepath(all[|ls| - 1]) == dest;
    assert ls[t] in ls && !Holds(StableSort(LayerLess, all), Filepath(ls[t]));
  }

  /** Forced, a file takes the place of the one with its path if and only if no layer before that one has the
      same digest and media type, since it is the first of those that goes. */
  lemma ForcedUpdatesExactly(ls: seq<Layer>, dest: string, built: Layer)
    requires Proper(ls) && IsFor(built, dest)
    ensures Attached(ls, dest, true, [built]).Some?
    ensures Updates(ls, dest, built, Attached(ls, dest, true, [built]).value) <==> NoTwin(ls, dest)
  {
    if NoTwin(ls, dest) { ForcedUpdates(ls, dest, built); } else { TwinGoes(ls, dest, built); }
  }

  lemma UpdatesCommute(ls: seq<Layer>, d: string, b: Layer, d': string, b': Layer, one: seq<Layer>, two: seq<Layer>, x: seq<Layer>, y: seq<Layer>)
    requires d != d' && Filepath(b) == d && Filepath(b') == d'
    requires Updates(ls, d, b, one) && Updates(ls, d', b', two) && Updates(one, d', b', x) && Updates(two, d, b, y)
    ensures x == y
  {
    forall l ensures l in x <==> l in y {
      assert l in one <==> l == b || (l in ls && Filepath(l) != d);
      assert l in two <==> l == b' || (l in ls && Filepath(l) != d');
    }
    OneList(x, y);
  }

  // ---------------------------------------------------------------- lists of distinct contents

  ghost predicate DistinctContents(ls: seq<Layer>) {
    forall i, j :: 0 <= i < j < |ls| ==> !SameContent(ls[i], ls[j])
  }

  /** No layer for another path has the contents of `b`. */
  ghost predicate OwnContents(ls: seq<Layer>, dest: string, b: Layer) {
    forall l :: l in ls && Filepath(l) != dest ==> !SameContent(l, b)
  }

  /** Layers of distinct contents have no twins, whatever the path. */
  lemma DistinctContentsNoTwin(ls: seq<Layer>, dest: string)
    requires DistinctContents(ls)
    ensures NoTwin(ls, dest)
  {
  }

  lemma ContentsDiffer(ls: seq<Layer>, x: Layer, y: Layer)
    requires DistinctContents(ls) && x in ls && y in ls && x != y
    ensures !SameContent(x, y)
  {
    var i :| 0 <= i < |ls| && ls[i] == x;
    var j :| 0 <= j < |ls| && ls[j] == y;
  }

  /** Contents stay distinct. */
  lemma StaysDistinct(ls: seq<Layer>, d: string, b: Layer, out: seq<Layer>)
    requires Updates(ls, d, b, out) && Filepath(b) == d && DistinctContents(ls) && OwnContents(ls, d, b)
    ensures DistinctContents(out)
  {
    forall i, j | 0 <= i < j < |out| ensures !SameContent(out[i], out[j]) {
      var x, y := out[i], out[j];
      assert x in out && y in out && Filepath(x) != Filepath(y);
      if x != b && y != b { ContentsDiffer(ls, x, y); }
    }
  }

  lemma ForcedDistinct(ls: seq<Layer>, d: string, b: Layer)
    requires Proper(ls) && IsFor(b, d) && DistinctContents(ls) && OwnContents(ls, d, b)
    ensures Attached(ls, d, true, [b]).Some? && Updates(ls, d, b, Attached(ls, d, true, [b]).value)
    ensures DistinctContents(Attached(ls, d, true, [b]).value)
  {
    DistinctContentsNoTwin(ls, d);
    ForcedUpdates(ls, d, b);
    StaysDistinct(ls, d, b, Attached(ls, d, true, [b]).value);
  }

  /** Attaching two files at different paths by force gives one and the same list in either order, when the layers
      have distinct contents and each file has contents of its own. */
  lemma ForcedCommutes(ls: seq<Layer>, d: string, b: Layer, d': string, b': Layer)
    requires Proper(ls) && IsFor(b, d) && IsFor(b', d') && d != d'
    requires DistinctContents(ls) && OwnContents(ls, d, b) && OwnContents(ls, d', b') && !SameContent(b, b')
    ensures Attached(ls, d, true, [b]).Some? && Attached(ls, d', true, [b']).Some?
    ensures Attached(Attached(ls, d, true, [b]).value, d', true, [b']) == Attached(Attached(ls, d', true, [b']).value, d, true, [b])
  {
    ForcedDistinct(ls, d, b);
    ForcedDistinct(ls, d', b');
    var one, two := Attached(ls, d, true, [b]).value, Attached(ls, d', true, [b']).value;
    ForcedDistinct(one, d', b');
    ForcedDistinct(two, d, b);
    UpdatesCommute(ls, d, b, d', b', one, two, Attached(one, d', true, [b']).value, Attached(two, d, true, [b]).value);
  }

  lemma NoTwinAfter(ls: seq<Layer>, d: string, b: Layer, out: seq<Layer>)
    requires Updates(ls, d, b, out) && IsFor(b, d) && OwnContents(ls, d, b)
    ensures NoTwin(out, d)
  {
    FoundExactly(out, d);
    var k := FirstNamed(out, d);
    if k < |out| {
      assert out[k] == b by { assert out[k] in out; }
      forall i | 0 <= i < k ensures !SameContent(out[i], out[k]) { assert out[i] in out && Filepath(out[i]) != Filepath(out[k]); }
    }
  }

  /** Attaching the same file again changes nothing, when no other layer has its contents and the one it first
      replaced had no twin. */
  lemma ForcedTwiceIsOnce(ls: seq<Layer>, d: string, b: Layer)
    requires Proper(ls) && IsFor(b, d) && NoTwin(ls, d) && OwnContents(ls, d, b)
    ensures Attached(ls, d, true, [b]).Some?
    ensures Attached(Attached(ls, d, true, [b]).value, d, true, [b]) == Attached(ls, d, true, [b])
  {
    ForcedUpdates(ls, d, b);
    var one := Attached(ls, d, true, [b]).value;
    NoTwinAfter(ls, d, b, one);
    ForcedUpdates(one, d, b);
    OneList(one, Attached(one, d, true, [b]).value);
  }

  /** Pairwise different contents in the list and in what is attached are enough for both. */
  lemma DistinctContentsCommute(ls: seq<Layer>, d: string, b: Layer, d': string, b': Layer)
    requires Proper(ls) && IsFor(b, d) && IsFor(b', d') && d != d' && DistinctContents(ls + [b, b'])
    ensures Attached(ls, d, true, [b]).Some? && Attached(ls, d', true, [b']).Some?
    ensures Attached(Attached(ls, d, true, [b]).value, d', true, [b']) == Attached(Attached(ls, d', true, [b']).value, d, true, [b])
    ensures Attached(Attached(ls, d, true, [b]).value, d, true, [b]) == Attached(ls, d, true, [b])
  {
    var all := ls + [b, b'];
    assert all[|ls|] == b && all[|ls| + 1] == b' && forall i :: 0 <= i < |ls| ==> all[i] == ls[i];
    forall l | l in ls ensures !SameContent(l, b) && !SameContent(l, b') {
      var i :| 0 <= i < |ls| && ls[i] == l;
      assert all[i] == l;
    }
    DistinctContentsNoTwin(ls, d);
    ForcedCommutes(ls, d, b, d', b');
    ForcedTwiceIsOnce(ls, d, b);
  }
}
