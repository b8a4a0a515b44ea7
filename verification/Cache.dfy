/** `internal/cache/cache.go`: file information kept in one JSON file, and forgotten after a day. */
module Caching {
  import opened Options

  datatype Item = Item(path: string, modTime: int, size: int, digest: string, createdAt: int)

  /** The cache file; the lock may have created it empty. A corrupt one cannot be read or is no JSON list. */
  datatype CacheFile = Missing | Empty | Items(items: seq<Item>) | Corrupt

  /** How writing the file goes: an error before anything is touched, one after the file was truncated, when a beginning
      of the list is left, or one on closing it. */
  datatype Fate = Works | NotBegun | CutShort(empty: bool) | LateError

  datatype Lookup = Found(item: Item) | NotFound | Unreadable

  /** Nanoseconds. */
  const TTL: int := 24 * 3600 * 1_000_000_000

  predicate Expired(item: Item, now: int) {
    now - item.createdAt > TTL
  }

  /** The items of a list by path; the last one counts. */
  function ByPath(items: seq<Item>): map<string, Item>
    decreases |items|
  {
    if items == [] then map[] else ByPath(items[..|items| - 1])[items[|items| - 1].path := items[|items| - 1]]
  }

  predicate Readable(f: CacheFile) {
    !f.Corrupt?
  }

  function Stored(f: CacheFile): map<string, Item> {
    if f.Items? then ByPath(f.items) else map[]
  }

  function Pruned(m: map<string, Item>, now: int): map<string, Item> {
    map p | p in m && !Expired(m[p], now) :: m[p]
  }

  ghost predicate Keyed(m: map<string, Item>) {
    forall p :: p in m ==> m[p].path == p
  }

  ghost predicate NoRepeats(items: seq<Item>) {
    forall i, j :: 0 <= i < j < |items| ==> items[i].path != items[j].path
  }

  /** A list of exactly the items of a map. */
  ghost predicate Lists(items: seq<Item>, m: map<string, Item>) {
    NoRepeats(items) && ByPath(items) == m
  }

  /** What a plain map with an age limit answers. */
  function Answer(m: map<string, Item>, path: string, now: int): Lookup {
    if path in m && !Expired(m[path], now) then Found(m[path]) else NotFound
  }

  /** What is left of `before` when a list of `m` is written: a proper beginning of a JSON list is empty or no JSON. */
  ghost predicate Left(before: CacheFile, m: map<string, Item>, fate: Fate, after: CacheFile) {
    match fate
    case NotBegun => after == before
    case CutShort(empty) => after == if empty then Empty else Corrupt
    case _ => after.Items? && Lists(after.items, m)
  }

  lemma {:induction false} ByPathKeyed(items: seq<Item>)
    ensures Keyed(ByPath(items))
    ensures forall p :: p in ByPath(items) <==> exists k :: 0 <= k < |items| && items[k].path == p
    decreases |items|
  {
    if items != [] {
      var before := items[..|items| - 1];
      ByPathKeyed(before);
      assert forall k :: 0 <= k < |before| ==> before[k] == items[k];
      forall p ensures p in ByPath(items) <==> exists k :: 0 <= k < |items| && items[k].path == p {
        if p in ByPath(before) {
          var k :| 0 <= k < |before| && before[k].path == p;
          assert items[k].path == p;
        }
      }
    }
  }

  lemma ByPathSnoc(items: seq<Item>, item: Item)
    ensures ByPath(items + [item]) == ByPath(items)[item.path := item]
  {
    assert (items + [item])[..|items|] == items;
  }

  /** Of the items with one path the last counts. */
  lemma {:induction false} LastCounts(items: seq<Item>, k: nat)
    requires k < |items| && forall j :: k < j < |items| ==> items[j].path != items[k].path
    ensures items[k].path in ByPath(items) && ByPath(items)[items[k].path] == items[k]
    decreases |items|
  {
    var before := items[..|items| - 1];
    if k < |before| {
      assert before[k] == items[k] && forall j :: k < j < |before| ==> before[j] == items[j];
      LastCounts(before, k);
    }
  }

  /** Items of one path and one age are kept, pruned and found alike, whatever else they say of the file. */
  lemma OnlyAgeCounts(m: map<string, Item>, a: Item, b: Item, now: int)
    requires a.path == b.path && a.createdAt == b.createdAt
    ensures a.path in Pruned(m[a.path := a], now) <==> b.path in Pruned(m[b.path := b], now)
    ensures Answer(m[a.path := a], a.path, now) == Found(a) <==> Answer(m[b.path := b], b.path, now) == Found(b)
    ensures Answer(m[a.path := a], a.path, now) == Found(a) <==> now - a.createdAt <= 24 * 3600 * 1_000_000_000
  {
  }

  class Cache {
    var file: CacheFile

    /** `None` is an error. */
    method ReadItems() returns (r: Option<map<string, Item>>)
      ensures r == if Readable(file) then Some(Stored(file)) else None
    {
      if file.Missing? || file.Empty? {
        return Some(map[]);
      }
      if file.Corrupt? {
        return None;
      }
      var itemMap: map<string, Item> := map[];
      var items := file.items;
      for i := 0 to |items|
        invariant itemMap == ByPath(items[..i])
      {
        assert items[..i + 1] == items[..i] + [items[i]];
        ByPathSnoc(items[..i], items[i]);
        itemMap := itemMap[items[i].path := items[i]];
      }
      assert items[..|items|] == items;
      return Some(itemMap);
    }

    /** The order of the written list is the one Go walks a map in, which is any order. */
    method WriteItems(itemsMap: map<string, Item>, fate: Fate) returns (ok: bool)
      requires Keyed(itemsMap)
      modifies this
      ensures ok <==> fate.Works?
      ensures Left(old(file), itemsMap, fate, file)
    {
      var items: seq<Item> := [];
      var rest := itemsMap.Keys;
      while rest != {}
        invariant rest <= itemsMap.Keys && file == old(file)
        invariant NoRepeats(items) && ByPath(items) == itemsMap - rest
        invariant forall k :: 0 <= k < |items| ==> items[k].path !in rest
        decreases |rest|
      {
        var path :| path in rest;
        ByPathSnoc(items, itemsMap[path]);
        ByPathKeyed(items);
        rest := rest - {path};
        items := items + [itemsMap[path]];
      }
      match fate {
        case NotBegun =>
        case CutShort(empty) => file := if empty then Empty else Corrupt;
        case Works => file := Items(items);
        case LateError => file := Items(items);
      }
      ok := fate.Works?;
    }

    /** Deletes in place, under one reading of the clock. */
    method Prune(itemsMap: map<string, Item>, now: int) returns (left: map<string, Item>)
      ensures left == Pruned(itemsMap, now)
      ensures forall p :: p in left <==> p in itemsMap && now - itemsMap[p].createdAt <= 24 * 3600 * 1_000_000_000
    {
      left := itemsMap;
      var rest := itemsMap.Keys;
      while rest != {}
        invariant rest <= itemsMap.Keys
        invariant left == map p | p in itemsMap && (p in rest || !Expired(itemsMap[p], now)) :: itemsMap[p]
        decreases |rest|
      {
        var path :| path in rest;
        rest := rest - {path};
        if Expired(itemsMap[path], now) {
          left := left - {path};
        }
      }
    }

    method Get(path: string, now: int) returns (r: Lookup)
      ensures r == if Readable(file) then Answer(Stored(file), path, now) else Unreadable
      ensures r.Found? <==> Readable(file) && path in Stored(file) && now - Stored(file)[path].createdAt <= 24 * 3600 * 1_000_000_000
      ensures r.Found? ==> r.item == Stored(file)[path]
    {
      var items := ReadItems();
      if items.None? {
        return Unreadable;
      }
      if path !in items.value || Expired(items.value[path], now) {
        return NotFound;
      }
      return Found(items.value[path]);
    }

    /** Through a file it cannot read a put never gets, so it does not repair one either. */
    method Put(item: Item, now: int, fate: Fate) returns (ok: bool)
      modifies this
      ensures ok <==> old(Readable(file)) && fate.Works?
      ensures old(Readable(file)) ==> Left(old(file), Pruned(old(Stored(file))[item.path := item], now), fate, file)
      ensures !old(Readable(file)) ==> file == old(file)
    {
      var read := ReadItems();
      if read.None? {
        return false;
      }
      if file.Items? { ByPathKeyed(file.items); }
      var itemsMap := read.value[item.path := item];
      itemsMap := Prune(itemsMap, now);
      ok := WriteItems(itemsMap, fate);
    }
  }
}
