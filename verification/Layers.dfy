/** Layers of a model artifact: the path a layer is for, and the order layers are kept in. */
module Layers {
  import opened Options
  import opened Ordering

  /** The two filepath annotations, under the current key and the legacy one; "" is an absent one. */
  datatype Notes = Notes(filepath: string, legacy: string)

  datatype Layer = Layer(mediaType: string, digest: string, notes: Option<Notes>)

  const WEIGHT_CONFIG := "application/vnd.cncf.model.weight.config.v1.tar"
  const WEIGHT := "application/vnd.cncf.model.weight.v1.tar"
  const CODE := "application/vnd.cncf.model.code.v1.tar"
  const DOC := "application/vnd.cncf.model.doc.v1.tar"

  /** The priority map; a media type that is not in it gets Go's zero. */
  function Priority(mediaType: string): nat {
    if mediaType == WEIGHT_CONFIG then 0
    else if mediaType == WEIGHT then 1
    else if mediaType == CODE then 2
    else if mediaType == DOC then 3
    else 0
  }

  function Filepath(l: Layer): string {
    match l.notes
    case None => ""
    case Some(n) => if n.filepath != "" then n.filepath else n.legacy
  }

  /** The comparison of `sortLayers`. */
  predicate LayerLess(a: Layer, b: Layer) {
    if Priority(a.mediaType) != Priority(b.mediaType) then Priority(a.mediaType) < Priority(b.mediaType)
    else Less(Filepath(a), Filepath(b))
  }

  /** The comparison `Process` sorts by. */
  predicate PathLess(a: Layer, b: Layer) {
    Less(Filepath(a), Filepath(b))
  }

  lemma LayerLessOrders()
    ensures Orders(LayerLess) && Orders(PathLess)
  {
    LessOrders();
    forall x, y, z | LayerLess(x, y) ensures LayerLess(x, z) || LayerLess(z, y) {
      assert Less(Filepath(x), Filepath(y)) ==> Less(Filepath(x), Filepath(z)) || Less(Filepath(z), Filepath(y));
    }
  }

  ghost predicate DistinctFilepaths(ls: seq<Layer>) {
    forall i, j {:trigger Filepath(ls[i]), Filepath(ls[j])} :: 0 <= i < j < |ls| ==> Filepath(ls[i]) != Filepath(ls[j])
  }

  /** Two sorted lists of the same layers, no two for one path, are the same list. */
  lemma SortedLayersUnique(less: (Layer, Layer) -> bool, xs: seq<Layer>, ys: seq<Layer>)
    requires less == LayerLess || less == PathLess
    requires multiset(xs) == multiset(ys) && Sorted(less, xs) && Sorted(less, ys) && DistinctFilepaths(xs)
    ensures xs == ys
  {
    forall x, y | x in xs && y in xs && !less(x, y) && !less(y, x) ensures x == y {
      LessTotal(Filepath(x), Filepath(y));
      var i :| 0 <= i < |xs| && xs[i] == x;
      var j :| 0 <= j < |xs| && xs[j] == y;
    }
    SortedUnique(less, xs, ys);
  }

  /** The path is the current annotation where there is one, and else the legacy one. */
  predicate IsPathOf(path: string, l: Layer) {
    || (l.notes.None? && path == "")
    || (l.notes.Some? && l.notes.value.filepath == path && path != "")
    || (l.notes.Some? && l.notes.value.filepath == "" && l.notes.value.legacy == path)
  }

  /** In a sorted list the weight configs come first, together with all media types the map does not know, then the
      weights, then the code, then the documents, and each group is in the order of its paths. */
  lemma SortedGroups(ls: seq<Layer>, i: nat, j: nat, a: string, b: string)
    requires Sorted(LayerLess, ls) && i < j < |ls| && IsPathOf(a, ls[i]) && IsPathOf(b, ls[j])
    ensures ls[j].mediaType == WEIGHT_CONFIG ==> ls[i].mediaType !in {WEIGHT, CODE, DOC}
    ensures ls[i].mediaType == DOC ==> ls[j].mediaType == DOC
    ensures ls[i].mediaType == CODE ==> ls[j].mediaType == CODE || ls[j].mediaType == DOC
    ensures ls[i].mediaType == WEIGHT ==> ls[j].mediaType == WEIGHT || ls[j].mediaType == CODE || ls[j].mediaType == DOC
    ensures ls[i].mediaType == ls[j].mediaType || (ls[i].mediaType !in {WEIGHT, CODE, DOC} && ls[j].mediaType !in {WEIGHT, CODE, DOC}) ==>
              a == b || Earlier(a, b)
  {
    assert !LayerLess(ls[j], ls[i]);
    LessTotal(Filepath(ls[i]), Filepath(ls[j]));
    LessExactly(Filepath(ls[i]), Filepath(ls[j]));
  }

  /** A list sorted by paths. */
  lemma PathsInOrder(ls: seq<Layer>, i: nat, j: nat, a: string, b: string)
    requires Sorted(PathLess, ls) && i < j < |ls| && IsPathOf(a, ls[i]) && IsPathOf(b, ls[j])
    ensures a == b || Earlier(a, b)
  {
    assert !PathLess(ls[j], ls[i]);
    LessTotal(Filepath(ls[i]), Filepath(ls[j]));
    LessExactly(Filepath(ls[i]), Filepath(ls[j]));
  }
}
