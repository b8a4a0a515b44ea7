/** The order of strings and the sorts of Go's standard library.

    `sort.SliceStable` keeps incomparable elements in their order and is a function here; of `sort.Slice` and
    `sort.Strings` callers learn only that the result is a sorted permutation. Where that is all there is, the comparison
    is shown to leave one sorted permutation only (`SortedUnique`, `SortedOnce`, `ListingUnique`). */
module Ordering {
  /** Byte order of UTF-8, which is the order of the code points. */
  predicate Less(a: string, b: string) {
    b != "" && (a == "" || a[0] < b[0] || (a[0] == b[0] && Less(a[1..], b[1..])))
  }

  lemma {:induction false} LessAsymmetric(a: string, b: string)
    ensures !(Less(a, b) && Less(b, a))
    decreases |a|
  {
    if a != "" && b != "" && a[0] == b[0] { LessAsymmetric(a[1..], b[1..]); }
  }

  lemma {:induction false} LessTotal(a: string, b: string)
    ensures Less(a, b) || a == b || Less(b, a)
    decreases |a|
  {
    if a != "" && b != "" && a[0] == b[0] {
      LessTotal(a[1..], b[1..]);
      if a[1..] == b[1..] { assert a == [a[0]] + a[1..] && b == [b[0]] + b[1..]; }
    }
  }

  lemma {:induction false} LessTransitive(a: string, b: string, c: string)
    requires Less(a, b) && Less(b, c)
    ensures Less(a, c)
    decreases |a|
  {
    if a != "" && a[0] == b[0] && b[0] == c[0] { LessTransitive(a[1..], b[1..], c[1..]); }
  }

  /** `a` is a proper beginning of `b`, or has the smaller character where they first differ. */
  ghost predicate Earlier(a: string, b: string) {
    (|a| < |b| && a == b[..|a|]) || exists k :: 0 <= k < |a| && k < |b| && a[..k] == b[..k] && a[k] < b[k]
  }

  /** One character at the head of both changes nothing. */
  lemma EarlierTails(a: string, b: string)
    requires a != "" && b != "" && a[0] == b[0]
    ensures Earlier(a, b) <==> Earlier(a[1..], b[1..])
  {
    var x, y := a[1..], b[1..];
    assert a == [a[0]] + x && b == [a[0]] + y;
    if |a| < |b| && a == b[..|a|] { assert x == b[..|a|][1..] == y[..|x|]; }
    if |x| < |y| && x == y[..|x|] { assert b[..|a|] == [a[0]] + y[..|x|]; }
    if k :| 0 <= k < |a| && k < |b| && a[..k] == b[..k] && a[k] < b[k] {
      assert x[..k - 1] == a[..k][1..] && y[..k - 1] == b[..k][1..];
      assert x[k - 1] < y[k - 1];
    }
    if k :| 0 <= k < |x| && k < |y| && x[..k] == y[..k] && x[k] < y[k] {
      assert a[..k + 1] == [a[0]] + x[..k] && b[..k + 1] == [a[0]] + y[..k];
      assert a[k + 1] < b[k + 1];
    }
  }

  lemma EarlierHeads(a: string, b: string)
    requires a != "" && b != "" && a[0] != b[0]
    ensures Earlier(a, b) <==> a[0] < b[0]
  {
    if a[0] < b[0] { assert a[..0] == b[..0]; }
    assert a == a[..|a|];
    forall k | 0 < k <= |a| && k <= |b| ensures a[..k] != b[..k] { assert a[..k][0] == a[0] && b[..k][0] == b[0]; }
  }

  /** The order is that of the first difference. */
  lemma {:induction false} LessExactly(a: string, b: string)
    ensures Less(a, b) <==> Earlier(a, b)
    decreases |a|
  {
    if a == "" {
      assert b != "" ==> b[..0] == "";
    } else if b != "" {
      if a[0] == b[0] {
        EarlierTails(a, b);
        LessExactly(a[1..], b[1..]);
      } else {
        EarlierHeads(a, b);
      }
    }
  }

  // ---------------------------------------------------------------- sorting by any order

  /** What a comparison function owes `sort`: a strict weak order. */
  ghost predicate Orders<T(!new)>(less: (T, T) -> bool) {
    && (forall x, y :: less(x, y) ==> !less(y, x))
    && (forall x, y, z :: less(x, y) ==> less(x, z) || less(z, y))
  }

  ghost predicate Sorted<T>(less: (T, T) -> bool, xs: seq<T>) {
    forall i, j :: 0 <= i < j < |xs| ==> !less(xs[j], xs[i])
  }

  /** The first sorted place for an element that came before all of `xs`. */
  function Insert<T>(less: (T, T) -> bool, x: T, xs: seq<T>): seq<T> {
    if xs == [] || !less(xs[0], x) then [x] + xs else [xs[0]] + Insert(less, x, xs[1..])
  }

  /** `sort.SliceStable`. */
  function StableSort<T>(less: (T, T) -> bool, xs: seq<T>): seq<T> {
    if xs == [] then [] else Insert(less, xs[0], StableSort(less, xs[1..]))
  }

  lemma {:induction false} InsertPermutes<T>(less: (T, T) -> bool, x: T, xs: seq<T>)
    ensures multiset(Insert(less, x, xs)) == multiset(xs) + multiset{x}
    decreases |xs|
  {
    if xs != [] && less(xs[0], x) {
      InsertPermutes(less, x, xs[1..]);
      assert xs == [xs[0]] + xs[1..];
    }
  }

  lemma NotBelow<T(!new)>(less: (T, T) -> bool, a: T, b: T, c: T)
    requires Orders(less) && !less(a, b) && !less(b, c)
    ensures !less(a, c)
  {
  }

  lemma {:induction false} InsertSorts<T(!new)>(less: (T, T) -> bool, x: T, xs: seq<T>)
    requires Orders(less) && Sorted(less, xs)
    ensures Sorted(less, Insert(less, x, xs))
    decreases |xs|
  {
    if xs == [] || !less(xs[0], x) {
      forall j | 0 < j < |xs| ensures !less(xs[j], x) { NotBelow(less, xs[j], xs[0], x); }
    } else {
      var rest := Insert(less, x, xs[1..]);
      assert forall i :: 0 <= i < |xs[1..]| ==> xs[1..][i] == xs[i + 1];
      InsertSorts(less, x, xs[1..]);
      forall j | 0 <= j < |rest| ensures !less(rest[j], xs[0]) {
        InsertPermutes(less, x, xs[1..]);
        assert rest[j] in multiset(rest);
        if rest[j] != x {
          var k :| 0 <= k < |xs[1..]| && xs[1..][k] == rest[j];
          assert xs[k + 1] == rest[j];
        }
      }
    }
  }

  /** The sort is a permutation, and sorted. */
  lemma {:induction false} StableSortSorts<T(!new)>(less: (T, T) -> bool, xs: seq<T>)
    ensures multiset(StableSort(less, xs)) == multiset(xs)
    ensures Orders(less) ==> Sorted(less, StableSort(less, xs))
    decreases |xs|
  {
    if xs != [] {
      StableSortSorts(less, xs[1..]);
      InsertPermutes(less, xs[0], StableSort(less, xs[1..]));
      if Orders(less) { InsertSorts(less, xs[0], StableSort(less, xs[1..])); }
      assert xs == [xs[0]] + xs[1..];
    }
  }

  /** `sort.Slice` and `sort.Strings` promise a sorted permutation and nothing about equal elements. */
  method SortSlice<T(!new)>(less: (T, T) -> bool, xs: seq<T>) returns (ys: seq<T>)
    requires Orders(less)
    ensures Sorted(less, ys) && multiset(ys) == multiset(xs)
  {
    StableSortSorts(less, xs);
    ys := StableSort(less, xs);
  }

  /** When only equal elements are incomparable, there is one sorted permutation. */
  lemma {:induction false} SortedUnique<T(!new)>(less: (T, T) -> bool, xs: seq<T>, ys: seq<T>)
    requires multiset(xs) == multiset(ys) && Sorted(less, xs) && Sorted(less, ys)
    requires forall x, y :: x in xs && y in xs && !less(x, y) && !less(y, x) ==> x == y
    ensures xs == ys
    decreases |xs|
  {
    assert |xs| == |multiset(xs)| == |multiset(ys)| == |ys|;
    if xs != [] {
      assert xs[0] in multiset(ys) && ys[0] in multiset(xs);
      var i :| 0 <= i < |ys| && ys[i] == xs[0];
      var j :| 0 <= j < |xs| && xs[j] == ys[0];
      assert i > 0 ==> !less(ys[i], ys[0]);
      assert j > 0 ==> !less(xs[j], xs[0]);
      assert xs[0] == ys[0];
      Tails(xs, ys);
      assert forall x :: x in xs[1..] ==> x in xs;
      assert Sorted(less, xs[1..]) by { assert forall k :: 0 <= k < |xs[1..]| ==> xs[1..][k] == xs[k + 1]; }
      assert Sorted(less, ys[1..]) by { assert forall k :: 0 <= k < |ys[1..]| ==> ys[1..][k] == ys[k + 1]; }
      SortedUnique(less, xs[1..], ys[1..]);
      assert xs == [xs[0]] + xs[1..] && ys == [ys[0]] + ys[1..];
    }
  }

  lemma Tails<T>(xs: seq<T>, ys: seq<T>)
    requires xs != [] && ys != [] && xs[0] == ys[0] && multiset(xs) == multiset(ys)
    ensures multiset(xs[1..]) == multiset(ys[1..])
  {
    assert xs == [xs[0]] + xs[1..] && ys == [ys[0]] + ys[1..];
    assert multiset(xs[1..]) == multiset(xs) - multiset{xs[0]};
    assert multiset(ys[1..]) == multiset(ys) - multiset{ys[0]};
  }

  lemma LessOrders()
    ensures Orders(Less)
  {
    forall x, y | Less(x, y) ensures !Less(y, x) { LessAsymmetric(x, y); }
    forall x, y, z | Less(x, y) ensures Less(x, z) || Less(z, y) {
      LessTotal(x, z);
      if Less(z, x) { LessTransitive(z, x, y); }
    }
  }

  /** A set of strings has one sorted listing. */
  ghost predicate ListingOf(xs: seq<string>, s: set<string>) {
    multiset(xs) == multiset(s) && Sorted(Less, xs)
  }

  /** In sorted strings each is the same as the next or earlier. */
  lemma SortedInOrder(xs: seq<string>, i: nat, j: nat)
    requires Sorted(Less, xs) && i < j < |xs|
    ensures xs[i] == xs[j] || Earlier(xs[i], xs[j])
  {
    LessTotal(xs[i], xs[j]);
    LessExactly(xs[i], xs[j]);
  }

  lemma ListingInOrder(xs: seq<string>, s: set<string>, i: nat, j: nat)
    requires ListingOf(xs, s) && i < j < |xs|
    ensures Earlier(xs[i], xs[j])
  {
    SortedInOrder(xs, i, j);
    ListedOnce(xs, s, i, j);
  }

  lemma ListedOnce(xs: seq<string>, s: set<string>, i: nat, j: nat)
    requires multiset(xs) == multiset(s) && i < j < |xs|
    ensures xs[i] != xs[j]
  {
    var x, before, after := xs[j], xs[..j], xs[j + 1..];
    assert xs == before + [x] + after;
    assert multiset(xs)[x] == multiset(before)[x] + 1 + multiset(after)[x];
    assert multiset(s)[x] <= 1;
    assert x !in before && before[i] == xs[i];
  }

  lemma ListingUnique(xs: seq<string>, ys: seq<string>, s: set<string>)
    requires ListingOf(xs, s) && ListingOf(ys, s)
    ensures xs == ys
  {
    forall x, y | x in xs && y in xs && !Less(x, y) && !Less(y, x) ensures x == y { LessTotal(x, y); }
    SortedUnique(Less, xs, ys);
  }

  ghost function AnyListing(s: set<string>): (xs: seq<string>)
    ensures multiset(xs) == multiset(s)
  {
    if s == {} then [] else
      var x :| x in s;
      assert s == (s - {x}) + {x};
      AnyListing(s - {x}) + [x]
  }

  ghost function SortedListing(s: set<string>): (xs: seq<string>)
    ensures ListingOf(xs, s)
  {
    LessOrders();
    StableSortSorts(Less, AnyListing(s));
    StableSort(Less, AnyListing(s))
  }

  /** However the values come, sorting them gives one list. */
  lemma SortedOnce(xs: seq<string>, values: seq<string>)
    requires Sorted(Less, xs) && multiset(xs) == multiset(values)
    ensures xs == StableSort(Less, values)
  {
    LessOrders();
    StableSortSorts(Less, values);
    forall x, y | x in xs && y in xs && !Less(x, y) && !Less(y, x) ensures x == y { LessTotal(x, y); }
    SortedUnique(Less, xs, StableSort(Less, values));
  }
}
