/**
 The reference for the Dropbox folder mirror: what the map, the timestamp index and the
 byte total must be after any sequence of listing entries.
 */
module FolderModel {

  type uint64 = n: nat | n < 0x1_0000_0000_0000_0000

  predicate Fits(n: int) {
    0 <= n < 0x1_0000_0000_0000_0000
  }

  /** The value an unsigned 64-bit variable takes. */
  function Wrap(n: int): (w: uint64)
    ensures Fits(n) ==> w == n
  {
    n % 0x1_0000_0000_0000_0000
  }

  lemma WrapStep(a: int, b: int)
    ensures Wrap(Wrap(a) + b) == Wrap(a + b)
    ensures Wrap(a) <= a || a < 0
  {}

  /** Path, server modification time and size of one file. */
  datatype Item = Item(path: string, modified: int, size: uint64)

  /** One decoded listing entry; any tag other than the three known ones is ignored. */
  datatype Entry = File(item: Item) | Folder(path: string) | Deleted(path: string) | OtherTag

  predicate Concerns(e: Entry, path: string) {
    (e.File? && e.item.path == path) || (e.Deleted? && e.path == path)
  }

  // ---------------------------------------------------------------- the map: last write wins

  function Write(m: map<string, Item>, e: Entry): map<string, Item> {
    match e
    case File(item) => m[item.path := item]
    case Deleted(path) => m - {path}
    case _ => m
  }

  function Mirror(entries: seq<Entry>): map<string, Item> {
    if entries == [] then map[] else Write(Mirror(entries[..|entries| - 1]), entries[|entries| - 1])
  }

  /** A path is live with `item` exactly when the last entry about that very path is the file
      entry for `item`; entries about other paths, parents included, do not matter. */
  lemma {:induction false} LastWriteWins(entries: seq<Entry>, path: string, item: Item)
    ensures path in Mirror(entries) && Mirror(entries)[path] == item
       <==> exists i :: 0 <= i < |entries| && Concerns(entries[i], path) && entries[i] == File(item)
                     && forall j :: i < j < |entries| ==> !Concerns(entries[j], path)
  {
    if entries != [] {
      var n := |entries| - 1;
      var before, e := entries[..n], entries[n];
      LastWriteWins(before, path, item);
      if Concerns(e, path) {
        if e == File(item) {
          assert Concerns(entries[n], path);
        }
      } else {
        if i :| 0 <= i < |before| && Concerns(before[i], path) && before[i] == File(item)
                && forall j :: i < j < |before| ==> !Concerns(before[j], path) {
          assert Concerns(entries[i], path) && entries[i] == File(item);
          assert forall j :: i < j < |entries| ==> !Concerns(entries[j], path);
        }
        if i :| 0 <= i < |entries| && Concerns(entries[i], path) && entries[i] == File(item)
                && forall j :: i < j < |entries| ==> !Concerns(entries[j], path) {
          assert before[i] == entries[i];
          assert forall j :: i < j < |before| ==> !Concerns(before[j], path);
        }
      }
    }
  }

  // ---------------------------------------------------------------- the index: stable sort of arrivals

  function Without(s: seq<Item>, path: string): seq<Item> {
    if s == [] then [] else (if s[0].path == path then [] else [s[0]]) + Without(s[1..], path)
  }

  /** The live items in the order of their last upsert: an overwrite moves the item to the end. */
  function Arrivals(entries: seq<Entry>): seq<Item> {
    if entries == [] then [] else Arrive(Arrivals(entries[..|entries| - 1]), entries[|entries| - 1])
  }

  function Arrive(live: seq<Item>, e: Entry): seq<Item> {
    match e
    case File(item) => Without(live, item.path) + [item]
    case Deleted(path) => Without(live, path)
    case _ => live
  }

  lemma OneMore(entries: seq<Entry>, e: Entry)
    ensures Mirror(entries + [e]) == Write(Mirror(entries), e)
    ensures Arrivals(entries + [e]) == Arrive(Arrivals(entries), e)
  {
    assert (entries + [e])[..|entries|] == entries;
  }

  ghost predicate Sorted(s: seq<Item>) {
    forall i, j :: 0 <= i < j < |s| ==> s[i].modified <= s[j].modified
  }

  ghost predicate UniquePaths(s: seq<Item>) {
    forall i, j :: 0 <= i < j < |s| ==> s[i].path != s[j].path
  }

  /** The items stamped `t`, in order. */
  function At(s: seq<Item>, t: int): seq<Item> {
    if s == [] then [] else (if s[0].modified == t then [s[0]] else []) + At(s[1..], t)
  }

  /** Sorted by timestamp, and items with equal timestamps in the order they have in `live`. */
  ghost predicate IsStableSort(s: seq<Item>, live: seq<Item>) {
    Sorted(s) && forall t :: At(s, t) == At(live, t)
  }

  lemma {:induction false} WithoutMembers(s: seq<Item>, path: string)
    ensures forall x :: x in Without(s, path) <==> x in s && x.path != path
  {
    if s != [] {
      WithoutMembers(s[1..], path);
    }
  }

  lemma {:induction false} AtMembers(s: seq<Item>, t: int)
    ensures forall x :: x in At(s, t) <==> x in s && x.modified == t
  {
    if s != [] {
      AtMembers(s[1..], t);
    }
  }

  function Sum(s: seq<Item>): nat {
    if s == [] then 0 else s[0].size + Sum(s[1..])
  }

  lemma {:induction false} SumConcat(a: seq<Item>, b: seq<Item>)
    ensures Sum(a + b) == Sum(a) + Sum(b)
  {
    if a == [] {
      assert a + b == b;
    } else {
      SumConcat(a[1..], b);
      assert (a + b)[1..] == a[1..] + b;
    }
  }

  lemma Rejoin(p: seq<Item>, q: seq<Item>, r: seq<Item>)
    ensures p + (q + r) == p + q + r
  {}

  lemma {:induction false} AtConcat(a: seq<Item>, b: seq<Item>, t: int)
    ensures At(a + b, t) == At(a, t) + At(b, t)
  {
    if a == [] {
      assert a + b == b;
    } else {
      AtConcat(a[1..], b, t);
      assert (a + b)[1..] == a[1..] + b;
      Rejoin(if a[0].modified == t then [a[0]] else [], At(a[1..], t), At(b, t));
    }
  }

  lemma {:induction false} WithoutConcat(a: seq<Item>, b: seq<Item>, path: string)
    ensures Without(a + b, path) == Without(a, path) + Without(b, path)
  {
    if a == [] {
      assert a + b == b;
    } else {
      var keep := if a[0].path == path then [] else [a[0]];
      WithoutConcat(a[1..], b, path);
      assert (a + b)[1..] == a[1..] + b;
      Rejoin(keep, Without(a[1..], path), Without(b, path));
    }
  }

  lemma {:induction false} AtWithout(s: seq<Item>, path: string, t: int)
    ensures At(Without(s, path), t) == Without(At(s, t), path)
  {
    if s != [] {
      AtWithout(s[1..], path, t);
      var x := [s[0]];
      WithoutConcat(if s[0].modified == t then x else [], At(s[1..], t), path);
      AtConcat(if s[0].path != path then x else [], Without(s[1..], path), t);
    }
  }

  lemma {:induction false} WithoutIsSorted(s: seq<Item>, path: string)
    requires Sorted(s)
    ensures Sorted(Without(s, path))
  {
    if s != [] {
      WithoutIsSorted(s[1..], path);
      WithoutMembers(s[1..], path);
      var rest := Without(s[1..], path);
      forall j | 0 <= j < |rest|
        ensures s[0].modified <= rest[j].modified
      {
        assert rest[j] in s[1..];
      }
    }
  }

  lemma {:induction false} WithoutIsUnique(s: seq<Item>, path: string)
    requires UniquePaths(s)
    ensures UniquePaths(Without(s, path))
  {
    if s != [] {
      WithoutIsUnique(s[1..], path);
      WithoutMembers(s[1..], path);
      var rest := Without(s[1..], path);
      forall j | 0 <= j < |rest|
        ensures s[0].path != rest[j].path
      {
        assert rest[j] in s[1..];
      }
    }
  }

  /** Removing a path keeps a stable sort stable. */
  lemma StableWithout(s: seq<Item>, live: seq<Item>, path: string)
    requires IsStableSort(s, live)
    ensures IsStableSort(Without(s, path), Without(live, path))
  {
    WithoutIsSorted(s, path);
    forall t
      ensures At(Without(s, path), t) == At(Without(live, path), t)
    {
      AtWithout(s, path, t);
      AtWithout(live, path, t);
    }
  }

  /** Inserting a new arrival behind everything that is not younger keeps a stable sort stable. */
  lemma StableInsert(s: seq<Item>, live: seq<Item>, x: Item, k: nat)
    requires IsStableSort(s, live) && k <= |s|
    requires forall i :: 0 <= i < k ==> s[i].modified <= x.modified
    requires forall i :: k <= i < |s| ==> x.modified < s[i].modified
    ensures IsStableSort(s[..k] + [x] + s[k..], live + [x])
  {
    hide At, Sorted;
    SortedInsert(s, x, k);
    forall t
      ensures At(s[..k] + [x] + s[k..], t) == At(live + [x], t)
    {
      InsertAt(s[..k], s[k..], x, t);
      assert s[..k] + s[k..] == s;
      AtConcat(live, [x], t);
    }
  }

  lemma SortedInsert(s: seq<Item>, x: Item, k: nat)
    requires Sorted(s) && k <= |s|
    requires forall i :: 0 <= i < k ==> s[i].modified <= x.modified
    requires forall i :: k <= i < |s| ==> x.modified < s[i].modified
    ensures Sorted(s[..k] + [x] + s[k..])
  {
    var s' := s[..k] + [x] + s[k..];
    assert forall i :: 0 <= i < |s'| ==> s'[i] == if i < k then s[i] else if i == k then x else s[i - 1];
  }

  lemma InsertAt(a: seq<Item>, b: seq<Item>, x: Item, t: int)
    requires forall i :: 0 <= i < |b| ==> x.modified < b[i].modified
    ensures At(a + [x] + b, t) == At(a + b, t) + At([x], t)
  {
    AtConcat(a + [x], b, t);
    AtConcat(a, [x], t);
    AtConcat(a, b, t);
    if t == x.modified {
      NoneAt(b, t);
    } else {
      NoneAt([x], t);
    }
    Swap(At(a, t), At([x], t), At(b, t));
  }

  lemma Swap(p: seq<Item>, q: seq<Item>, r: seq<Item>)
    requires q == [] || r == []
    ensures p + q + r == p + r + q
  {}

  lemma {:induction false} NoneAt(s: seq<Item>, t: int)
    requires forall i :: 0 <= i < |s| ==> s[i].modified != t
    ensures At(s, t) == []
  {
    if s != [] {
      NoneAt(s[1..], t);
    }
  }

  /** The position of the last entry about a path, or -1. */
  function LastAbout(entries: seq<Entry>, path: string): (n: int)
    ensures -1 <= n < |entries|
    ensures n >= 0 ==> Concerns(entries[n], path)
    ensures forall j :: n < j < |entries| ==> !Concerns(entries[j], path)
  {
    if entries == [] then -1
    else
      var n := |entries| - 1;
      if Concerns(entries[n], path) then n else LastAbout(entries[..n], path)
  }

  ghost predicate InOrder(live: seq<Item>, entries: seq<Entry>) {
    forall i, j :: 0 <= i < j < |live| ==> LastAbout(entries, live[i].path) < LastAbout(entries, live[j].path)
  }

  ghost predicate Upserted(live: seq<Item>, entries: seq<Entry>) {
    forall x :: x in live ==> LastAbout(entries, x.path) >= 0 && entries[LastAbout(entries, x.path)] == File(x)
  }

  /** The arrivals are the live items, each with its last entry, in the order of those entries: an overwrite
      moves an item behind all others. */
  lemma {:induction false} ArrivalsInOrder(entries: seq<Entry>)
    ensures InOrder(Arrivals(entries), entries) && Upserted(Arrivals(entries), entries)
  {
    if entries != [] {
      var before, e := entries[..|entries| - 1], entries[|entries| - 1];
      var live := Arrivals(before);
      ArrivalsInOrder(before);
      if e.File? || e.Deleted? {
        var path := if e.File? then e.item.path else e.path;
        var rest := Without(live, path);
        WithoutMembers(live, path);
        WithoutIsInOrder(live, path, before);
        OrderStays(rest, entries);
        if e.File? { NewestIsLast(rest, entries, e.item); }
      } else {
        OrderStays(live, entries);
      }
    }
  }

  lemma {:induction false} WithoutIsInOrder(s: seq<Item>, path: string, entries: seq<Entry>)
    requires InOrder(s, entries)
    ensures InOrder(Without(s, path), entries)
  {
    hide LastAbout;
    if s != [] {
      WithoutIsInOrder(s[1..], path, entries);
      WithoutMembers(s[1..], path);
      var rest := Without(s[1..], path);
      forall j | 0 <= j < |rest|
        ensures LastAbout(entries, s[0].path) < LastAbout(entries, rest[j].path)
      {
        assert rest[j] in s[1..];
      }
    }
  }

  /** An entry about another path changes nothing. */
  lemma OrderStays(live: seq<Item>, entries: seq<Entry>)
    requires entries != []
    requires forall x :: x in live ==> !Concerns(entries[|entries| - 1], x.path)
    requires InOrder(live, entries[..|entries| - 1]) && Upserted(live, entries[..|entries| - 1])
    ensures InOrder(live, entries) && Upserted(live, entries)
  {
    forall x | x in live
      ensures LastAbout(entries, x.path) == LastAbout(entries[..|entries| - 1], x.path)
    {}
    hide LastAbout;
    assert forall i :: 0 <= i < |live| ==> live[i] in live;
  }

  lemma NewestIsLast(rest: seq<Item>, entries: seq<Entry>, x: Item)
    requires entries != [] && entries[|entries| - 1] == File(x)
    requires forall y :: y in rest ==> y.path != x.path
    requires InOrder(rest, entries) && Upserted(rest, entries)
    ensures InOrder(rest + [x], entries) && Upserted(rest + [x], entries)
  {
    var n := |entries| - 1;
    assert LastAbout(entries, x.path) == n;
    forall i | 0 <= i < |rest|
      ensures LastAbout(entries, rest[i].path) < n
    {
      assert rest[i] in rest && !Concerns(entries[n], rest[i].path);
    }
    hide LastAbout;
  }

  /** In the index, too, items with one timestamp stand in the order of their last entries. */
  lemma TiesInOrder(entries: seq<Entry>, t: int)
    ensures InOrder(At(Index(entries), t), entries)
    ensures forall x :: x in At(Index(entries), t) <==> x in Arrivals(entries) && x.modified == t
  {
    SortIsStable(Arrivals(entries));
    AtMembers(Arrivals(entries), t);
    ArrivalsInOrder(entries);
    AtIsInOrder(Arrivals(entries), t, entries);
  }

  lemma {:induction false} AtIsInOrder(s: seq<Item>, t: int, entries: seq<Entry>)
    requires InOrder(s, entries)
    ensures InOrder(At(s, t), entries)
  {
    hide LastAbout;
    if s != [] {
      AtIsInOrder(s[1..], t, entries);
      AtMembers(s[1..], t);
      var rest := At(s[1..], t);
      forall j | 0 <= j < |rest|
        ensures LastAbout(entries, s[0].path) < LastAbout(entries, rest[j].path)
      {
        assert rest[j] in s[1..];
      }
    }
  }

  /** There is only one stable sort. */
  lemma {:induction false} StableSortUnique(a: seq<Item>, b: seq<Item>, live: seq<Item>)
    requires IsStableSort(a, live) && IsStableSort(b, live)
    ensures a == b
  {
    SortedAtsDetermine(a, b);
  }

  lemma {:induction false} SortedAtsDetermine(a: seq<Item>, b: seq<Item>)
    requires Sorted(a) && Sorted(b)
    requires forall t :: At(a, t) == At(b, t)
    ensures a == b
  {
    if a == [] || b == [] {
      if a != [] { Shared(a, b, a[0]); }
      if b != [] { Shared(b, a, b[0]); }
    } else {
      var x, y := a[0], b[0];
      Shared(a, b, x);
      Shared(b, a, y);
      assert x.modified == y.modified;
      assert At(a, x.modified)[0] == x && At(b, x.modified)[0] == y;
      forall t
        ensures At(a[1..], t) == At(b[1..], t)
      {
        AtTail(a, t);
        AtTail(b, t);
      }
      SortedAtsDetermine(a[1..], b[1..]);
      assert a == [x] + a[1..] && b == [y] + b[1..];
    }
  }

  lemma Shared(a: seq<Item>, b: seq<Item>, x: Item)
    requires x in a
    requires forall t :: At(a, t) == At(b, t)
    ensures x in b
  {
    AtMembers(a, x.modified);
    AtMembers(b, x.modified);
  }

  lemma AtTail(s: seq<Item>, t: int)
    requires s != []
    ensures At(s[1..], t) == if s[0].modified == t then At(s, t)[1..] else At(s, t)
  {}

  // ---------------------------------------------------------------- the three views

  /** The index holds the items of the map, each of them once. */
  ghost predicate Indexes(index: seq<Item>, items: map<string, Item>) {
    && UniquePaths(index)
    && (forall x :: x in index <==> x.path in items && items[x.path] == x)
    && (forall p :: p in items ==> items[p].path == p)
  }

  /** What the folder keeps after handling `entries`: the last-write-wins map, its stable index,
      and the byte total modulo 2^64. */
  ghost predicate Agrees(items: map<string, Item>, index: seq<Item>, total: uint64, entries: seq<Entry>) {
    && items == Mirror(entries)
    && IsStableSort(index, Arrivals(entries))
    && Indexes(index, items)
    && total == Wrap(Sum(index))
  }

  /** The entries alone decide all three views, however they were cut into pages. */
  lemma ViewsAreDetermined(items: map<string, Item>, index: seq<Item>, total: uint64,
                           items': map<string, Item>, index': seq<Item>, total': uint64, entries: seq<Entry>)
    requires Agrees(items, index, total, entries) && Agrees(items', index', total', entries)
    ensures items == items' && index == index' && total == total'
  {
    StableSortUnique(index, index', Arrivals(entries));
  }

  lemma {:induction false} UniqueMember(s: seq<Item>, k: nat, path: string)
    requires UniquePaths(s) && k < |s| && s[k].path == path
    ensures Without(s, path) == s[..k] + s[k + 1..]
    ensures Sum(s) == Sum(Without(s, path)) + s[k].size
  {
    if k == 0 {
      NotPresent(s[1..], path);
      assert s[..0] + s[1..] == s[1..];
    } else {
      UniqueMember(s[1..], k - 1, path);
      CutOut(s, k);
      assert s[1..][k - 1] == s[k];
    }
  }

  lemma CutOut(s: seq<Item>, k: nat)
    requires 0 < k < |s|
    ensures s[..k] + s[k + 1..] == [s[0]] + (s[1..][..k - 1] + s[1..][k..])
  {}

  lemma {:induction false} NotPresent(s: seq<Item>, path: string)
    requires forall i :: 0 <= i < |s| ==> s[i].path != path
    ensures Without(s, path) == s
  {
    if s != [] {
      NotPresent(s[1..], path);
      assert s == [s[0]] + s[1..];
    }
  }

  lemma IndexesAfterErase(index: seq<Item>, items: map<string, Item>, path: string)
    requires Indexes(index, items)
    ensures Indexes(Without(index, path), items - {path})
  {
    WithoutIsUnique(index, path);
    WithoutMembers(index, path);
  }

  lemma IndexesAfterInsert(index: seq<Item>, items: map<string, Item>, x: Item, k: nat)
    requires Indexes(index, items) && x.path !in items && k <= |index|
    ensures Indexes(index[..k] + [x] + index[k..], items[x.path := x])
  {
    hide Indexes;
    PathIsNew(index, items, x.path);
    InsertKeepsUnique(index, x, k);
    InsertMembers(index, x, k);
    IndexesOfMembers(index, items, x, index[..k] + [x] + index[k..]);
  }

  lemma PathIsNew(index: seq<Item>, items: map<string, Item>, path: string)
    requires Indexes(index, items) && path !in items
    ensures UniquePaths(index)
    ensures forall i :: 0 <= i < |index| ==> index[i].path != path
  {
    forall i | 0 <= i < |index|
      ensures index[i].path != path
    {
      assert index[i] in index;
    }
  }

  lemma InsertKeepsUnique(index: seq<Item>, x: Item, k: nat)
    requires UniquePaths(index) && k <= |index|
    requires forall i :: 0 <= i < |index| ==> index[i].path != x.path
    ensures UniquePaths(index[..k] + [x] + index[k..])
  {
    var index' := index[..k] + [x] + index[k..];
    assert forall i :: 0 <= i < |index'| ==>
                         index'[i] == if i < k then index[i] else if i == k then x else index[i - 1];
  }

  lemma InsertMembers(index: seq<Item>, x: Item, k: nat)
    requires k <= |index|
    ensures forall y :: y in index[..k] + [x] + index[k..] <==> y == x || y in index
  {
    assert index == index[..k] + index[k..];
  }

  lemma IndexesOfMembers(index: seq<Item>, items: map<string, Item>, x: Item, index': seq<Item>)
    requires Indexes(index, items) && x.path !in items && UniquePaths(index')
    requires forall y :: y in index' <==> y == x || y in index
    ensures Indexes(index', items[x.path := x])
  {
    hide UniquePaths;
  }

  lemma SumInsert(index: seq<Item>, x: Item, k: nat)
    requires k <= |index|
    ensures Sum(index[..k] + [x] + index[k..]) == Sum(index) + x.size
  {
    var a, b := index[..k], index[k..];
    SumConcat(a + [x], b);
    SumConcat(a, [x]);
    SumConcat(a, b);
    assert a + b == index;
  }

  /** Erasing the one index slot of a live path is the effect of its "deleted" entry. */
  lemma AgreesAfterErase(items: map<string, Item>, index: seq<Item>, total: uint64, entries: seq<Entry>,
                         path: string, k: nat, index': seq<Item>, total': uint64)
    requires Agrees(items, index, total, entries)
    requires k < |index| && index[k].path == path
    requires index' == index[..k] + index[k + 1..] && total' == Wrap(total - index[k].size)
    ensures path in items
    ensures Agrees(items - {path}, index', total', entries + [Deleted(path)])
    ensures Fits(Sum(index)) ==> index[k].size <= total
  {
    hide IsStableSort, Indexes, Arrivals, Mirror, Without, Sum, Wrap, UniquePaths;
    IndexesSlot(index, items, k);
    UniqueMember(index, k, path);
    StableAfterIgnored(index, entries, Deleted(path));
    IndexesAfterErase(index, items, path);
    TotalAfterErase(index, index', total, index[k].size);
    MirrorAfter(entries, Deleted(path));
  }

  lemma IndexesSlot(index: seq<Item>, items: map<string, Item>, k: nat)
    requires Indexes(index, items) && k < |index|
    ensures UniquePaths(index) && index[k].path in items
  {
    assert index[k] in index;
  }

  lemma MirrorAfter(entries: seq<Entry>, e: Entry)
    ensures Mirror(entries + [e]) == Write(Mirror(entries), e)
  {
    OneMore(entries, e);
  }

  lemma StableAfterIgnored(index: seq<Item>, entries: seq<Entry>, e: Entry)
    requires IsStableSort(index, Arrivals(entries)) && !e.File?
    ensures IsStableSort(if e.Deleted? then Without(index, e.path) else index, Arrivals(entries + [e]))
  {
    hide IsStableSort;
    OneMore(entries, e);
    if e.Deleted? {
      StableWithout(index, Arrivals(entries), e.path);
    }
  }

  lemma TotalAfterErase(index: seq<Item>, index': seq<Item>, total: uint64, size: int)
    requires total == Wrap(Sum(index)) && Sum(index) == Sum(index') + size
    ensures Wrap(total - size) == Wrap(Sum(index'))
    ensures Fits(Sum(index)) ==> size <= total
  {
    WrapStep(Sum(index), -size);
  }

  /** A "deleted" entry for a path that is not live, and entries that name no file, change nothing. */
  lemma AgreesAfterIgnored(items: map<string, Item>, index: seq<Item>, total: uint64, entries: seq<Entry>, e: Entry)
    requires Agrees(items, index, total, entries)
    requires !e.File? && (e.Deleted? ==> e.path !in items)
    ensures Agrees(items, index, total, entries + [e])
  {
    hide IsStableSort, Indexes, Arrivals, Mirror;
    MirrorAfter(entries, e);
    StableAfterIgnored(index, entries, e);
    if e.Deleted? {
      PathIsNew(index, items, e.path);
      NotPresent(index, e.path);
      assert items - {e.path} == items;
    }
  }

  lemma MirrorOverwrite(items: map<string, Item>, entries: seq<Entry>, x: Item)
    requires items == Mirror(entries + [Deleted(x.path)])
    ensures x.path !in items
    ensures items[x.path := x] == Mirror(entries + [File(x)])
  {
    OneMore(entries, Deleted(x.path));
    OneMore(entries, File(x));
  }

  /** Inserting a file whose path has just been erased is the effect of its "file" entry. */
  lemma AgreesAfterInsert(items: map<string, Item>, index: seq<Item>, total: uint64, entries: seq<Entry>,
                          x: Item, k: nat, index': seq<Item>)
    requires Agrees(items, index, total, entries + [Deleted(x.path)])
    requires k <= |index| && index' == index[..k] + [x] + index[k..]
    requires forall i :: 0 <= i < k ==> index[i].modified <= x.modified
    requires forall i :: k <= i < |index| ==> x.modified < index[i].modified
    ensures Agrees(items[x.path := x], index', Wrap(total + x.size), entries + [File(x)])
  {
    hide IsStableSort, Indexes, Arrivals, Mirror;
    MirrorOverwrite(items, entries, x);
    StableAfterUpsert(index, entries, x, k, index');
    IndexesAfterInsert(index, items, x, k);
    SumInsert(index, x, k);
    WrapStep(Sum(index), x.size);
  }

  lemma StableAfterUpsert(index: seq<Item>, entries: seq<Entry>, x: Item, k: nat, index': seq<Item>)
    requires IsStableSort(index, Arrivals(entries + [Deleted(x.path)]))
    requires k <= |index| && index' == index[..k] + [x] + index[k..]
    requires forall i :: 0 <= i < k ==> index[i].modified <= x.modified
    requires forall i :: k <= i < |index| ==> x.modified < index[i].modified
    ensures IsStableSort(index', Arrivals(entries + [File(x)]))
  {
    OneMore(entries, Deleted(x.path));
    OneMore(entries, File(x));
    StableInsert(index, Arrivals(entries + [Deleted(x.path)]), x, k);
  }

  // ---------------------------------------------------------------- shrinking

  function Paths(s: seq<Item>): seq<string> {
    seq(|s|, i requires 0 <= i < |s| => s[i].path)
  }

  function Deletes(paths: seq<string>): seq<Entry> {
    seq(|paths|, i requires 0 <= i < |paths| => Deleted(paths[i]))
  }

  /** `k` is the length of the shortest prefix whose total strictly exceeds `excess`, or of the
      whole index when no prefix does. */
  ghost predicate IsCut(index: seq<Item>, excess: nat, k: nat) {
    && k <= |index|
    && (k < |index| ==> Sum(index[..k]) > excess)
    && forall j :: 0 <= j < k ==> Sum(index[..j]) <= excess
  }

  lemma {:induction false} SumMonotone(s: seq<Item>, j: nat, k: nat)
    requires j <= k <= |s|
    ensures Sum(s[..j]) <= Sum(s[..k]) <= Sum(s)
  {
    SumConcat(s[..j], s[j..k]);
    assert s[..j] + s[j..k] == s[..k];
    SumConcat(s[..k], s[k..]);
    assert s[..k] + s[k..] == s;
  }

  /** Under a positive quota the cut is never empty and removes more than the excess, even when the
      byte total has wrapped. Under quota zero it removes everything exactly when all items but the
      youngest do not exceed the reported total, as is so whenever the real total fits 64 bits. */
  lemma CutExceeds(index: seq<Item>, total: uint64, quota: nat, k: nat)
    requires total == Wrap(Sum(index)) && quota <= total
    requires IsCut(index, total - quota, k)
    ensures quota > 0 ==> k > 0 && Sum(index[..k]) > total - quota
    ensures quota == 0 && index != [] ==> (k == |index| <==> Sum(index[..|index| - 1]) <= total)
    ensures Fits(Sum(index)) && index != [] ==> Sum(index[..|index| - 1]) <= total
    ensures Sorted(index) ==> forall i, j :: 0 <= i < k <= j < |index| ==> index[i].modified <= index[j].modified
  {
    hide Sorted, IsCut, Sum;
    assert Sum(index) >= total;
    if quota > 0 { CutOfPositive(index, total - quota, k); }
    if index != [] { CutOfAll(index, total - quota, k); }
    if Sorted(index) { OldestFirst(index, k); }
  }

  lemma CutOfPositive(index: seq<Item>, excess: nat, k: nat)
    requires IsCut(index, excess, k) && excess < Sum(index)
    ensures k > 0 && Sum(index[..k]) > excess
  {
    assert index[..0] == [];
    assert index[..|index|] == index;
  }

  lemma CutOfAll(index: seq<Item>, excess: nat, k: nat)
    requires IsCut(index, excess, k) && index != []
    ensures k == |index| <==> Sum(index[..|index| - 1]) <= excess
    ensures Sum(index[..|index| - 1]) <= Sum(index)
  {
    hide Sum;
    var n := |index| - 1;
    SumMonotone(index, n, n);
    if k < |index| { SumMonotone(index, k, n); }
  }

  lemma OldestFirst(index: seq<Item>, k: nat)
    requires Sorted(index)
    ensures forall i, j :: 0 <= i < k <= j < |index| ==> index[i].modified <= index[j].modified
  {}

  lemma DeletesSplit(entries: seq<Entry>, index: seq<Item>, k: nat)
    requires 0 < k <= |index|
    ensures entries + Deletes(Paths(index[..k]))
         == (entries + [Deleted(index[0].path)]) + Deletes(Paths(index[1..][..k - 1]))
    ensures index[k..] == index[1..][k - 1..]
  {
    assert index[..k] == [index[0]] + index[1..][..k - 1];
  }

  /** Dropping the oldest k paths one by one leaves the suffix. */
  lemma {:induction false} AgreesAfterDeletes(items: map<string, Item>, index: seq<Item>, total: uint64,
                                              entries: seq<Entry>, k: nat)
    returns (items': map<string, Item>, total': uint64)
    requires Agrees(items, index, total, entries) && k <= |index|
    ensures Agrees(items', index[k..], total', entries + Deletes(Paths(index[..k])))
    decreases k
  {
    hide IsStableSort, Indexes, Arrivals, Mirror, Sum, Wrap;
    if k == 0 {
      items', total' := items, total;
      assert entries + Deletes(Paths(index[..k])) == entries;
      assert index[0..] == index;
    } else {
      var first := index[0].path;
      assert index[1..] == index[..0] + index[1..];
      var total1 := Wrap(total - index[0].size);
      AgreesAfterErase(items, index, total, entries, first, 0, index[1..], total1);
      items', total' := AgreesAfterDeletes(items - {first}, index[1..], total1, entries + [Deleted(first)], k - 1);
      DeletesSplit(entries, index, k);
    }
  }

  /** Shrink, then echo: when the "deleted" entries for the chosen paths come back, the index is
      the kept suffix. The total is then strictly below a positive quota, so that the same quota
      asks for nothing more, exactly when the removed bytes do not exceed the reported total; they
      never do while the real total fits 64 bits. */
  lemma ShrinkThenEcho(items: map<string, Item>, index: seq<Item>, total: uint64, entries: seq<Entry>,
                       items': map<string, Item>, index': seq<Item>, total': uint64, quota: nat, k: nat)
    requires Agrees(items, index, total, entries)
    requires quota <= total && IsCut(index, total - quota, k)
    requires Agrees(items', index', total', entries + Deletes(Paths(index[..k])))
    ensures index' == index[k..]
    ensures quota > 0 ==> (total' < quota <==> Sum(index[..k]) <= total)
    ensures Fits(Sum(index)) ==> Sum(index[..k]) <= total
  {
    hide IsStableSort, Indexes, Arrivals, Mirror;
    var items2, total2 := AgreesAfterDeletes(items, index, total, entries, k);
    ViewsAreDetermined(items', index', total', items2, index[k..], total2, entries + Deletes(Paths(index[..k])));
    SumConcat(index[..k], index[k..]);
    assert index[..k] + index[k..] == index;
    CutExceeds(index, total, quota, k);
    WrapStep(Sum(index), -(Sum(index[..k]) as int));
    if quota > 0 {
      LastStepIsOneItem(index, k);
    }
  }

  lemma LastStepIsOneItem(index: seq<Item>, k: nat)
    requires 0 < k <= |index|
    ensures Sum(index[..k]) == Sum(index[..k - 1]) + index[k - 1].size
  {
    SumConcat(index[..k - 1], [index[k - 1]]);
    assert index[..k] == index[..k - 1] + [index[k - 1]];
  }

  // ---------------------------------------------------------------- the three views as functions of the entries

  function Inserted(s: seq<Item>, x: Item): seq<Item> {
    if s == [] || x.modified < s[0].modified then [x] + s else [s[0]] + Inserted(s[1..], x)
  }

  function Sort(live: seq<Item>): seq<Item> {
    if live == [] then [] else Inserted(Sort(live[..|live| - 1]), live[|live| - 1])
  }

  function Index(entries: seq<Entry>): seq<Item> {
    Sort(Arrivals(entries))
  }

  function Total(entries: seq<Entry>): uint64 {
    Wrap(Sum(Index(entries)))
  }

  /** Insertion puts the item behind all that are not younger. */
  lemma {:induction false} InsertedAt(s: seq<Item>, x: Item) returns (k: nat)
    requires Sorted(s)
    ensures k <= |s| && Inserted(s, x) == s[..k] + [x] + s[k..]
    ensures forall i :: 0 <= i < k ==> s[i].modified <= x.modified
    ensures forall i :: k <= i < |s| ==> x.modified < s[i].modified
  {
    if s == [] || x.modified < s[0].modified {
      k := 0;
      assert s[..0] + [x] + s[0..] == [x] + s;
    } else {
      k := InsertedAt(s[1..], x);
      Shifted(s, x, k);
      k := k + 1;
    }
  }

  lemma Shifted(s: seq<Item>, x: Item, k: nat)
    requires s != [] && k < |s|
    ensures [s[0]] + (s[1..][..k] + [x] + s[1..][k..]) == s[..k + 1] + [x] + s[k + 1..]
  {}

  lemma {:induction false} SortIsStable(live: seq<Item>)
    ensures IsStableSort(Sort(live), live)
  {
    hide IsStableSort;
    if live == [] {
      EmptyIsStable();
    } else {
      var front, x := live[..|live| - 1], live[|live| - 1];
      SortIsStable(front);
      StableIsSorted(Sort(front), front);
      var k := InsertedAt(Sort(front), x);
      StableInsert(Sort(front), front, x, k);
      assert live == front + [x];
    }
  }

  lemma EmptyIsStable()
    ensures IsStableSort([], [])
  {}

  lemma StableIsSorted(s: seq<Item>, live: seq<Item>)
    requires IsStableSort(s, live)
    ensures Sorted(s)
  {}

  /** The index and the total are these functions of the entries. */
  lemma AgreesIsReference(items: map<string, Item>, index: seq<Item>, total: uint64, entries: seq<Entry>)
    requires Agrees(items, index, total, entries)
    ensures items == Mirror(entries) && index == Index(entries) && total == Total(entries)
  {
    hide IsStableSort, Indexes;
    SortIsStable(Arrivals(entries));
    StableSortUnique(index, Index(entries), Arrivals(entries));
  }

  /** Every sequence of entries has three views that agree. */
  lemma {:induction false} ReferenceAgrees(entries: seq<Entry>)
    ensures Agrees(Mirror(entries), Index(entries), Total(entries), entries)
  {
    if entries == [] {
      EmptyIsStable();
    } else {
      var before, e := entries[..|entries| - 1], entries[|entries| - 1];
      ReferenceAgrees(before);
      assert entries == before + [e];
      ReferenceStep(before, e);
    }
  }

  lemma ReferenceStep(before: seq<Entry>, e: Entry)
    requires Agrees(Mirror(before), Index(before), Total(before), before)
    ensures Agrees(Mirror(before + [e]), Index(before + [e]), Total(before + [e]), before + [e])
  {
    hide Agrees, Mirror, Index, Total;
    match e
    case File(x) =>
      var items, index, total := ErasedViews(before, x.path);
      var items', index', total' := InsertedViews(items, index, total, before, x);
      AgreesIsReference(items', index', total', before + [e]);
    case Deleted(path) =>
      var items, index, total := ErasedViews(before, path);
      AgreesIsReference(items, index, total, before + [e]);
    case _ =>
      AgreesAfterIgnored(Mirror(before), Index(before), Total(before), before, e);
      AgreesIsReference(Mirror(before), Index(before), Total(before), before + [e]);
  }

  lemma ErasedViews(before: seq<Entry>, path: string)
    returns (items: map<string, Item>, index: seq<Item>, total: uint64)
    requires Agrees(Mirror(before), Index(before), Total(before), before)
    ensures Agrees(items, index, total, before + [Deleted(path)])
  {
    hide Agrees, Mirror, Index, Total;
    if path in Mirror(before) {
      var k := LiveSlot(before, path);
      items, index := Mirror(before) - {path}, Index(before)[..k] + Index(before)[k + 1..];
      var size: int := Index(before)[k].size;
      total := Wrap(Total(before) - size);
      AgreesAfterErase(Mirror(before), Index(before), Total(before), before, path, k, index, total);
    } else {
      items, index, total := Mirror(before), Index(before), Total(before);
      AgreesAfterIgnored(items, index, total, before, Deleted(path));
    }
  }

  lemma LiveSlot(entries: seq<Entry>, path: string) returns (k: nat)
    requires Agrees(Mirror(entries), Index(entries), Total(entries), entries) && path in Mirror(entries)
    ensures k < |Index(entries)| && Index(entries)[k].path == path
  {
    hide Mirror, Index, IsStableSort;
    assert Mirror(entries)[path] in Index(entries);
    k :| 0 <= k < |Index(entries)| && Index(entries)[k] == Mirror(entries)[path];
  }

  lemma InsertedViews(items: map<string, Item>, index: seq<Item>, total: uint64, before: seq<Entry>, x: Item)
    returns (items': map<string, Item>, index': seq<Item>, total': uint64)
    requires Agrees(items, index, total, before + [Deleted(x.path)])
    ensures Agrees(items', index', total', before + [File(x)])
  {
    assert Sorted(index);
    hide Agrees, Inserted;
    var k := InsertedAt(index, x);
    items', index', total' := items[x.path := x], index[..k] + [x] + index[k..], Wrap(total + x.size);
    AgreesAfterInsert(items, index, total, before, x, k, index');
  }

  // ---------------------------------------------------------------- shrinking, as a function of the entries

  /** The length of the shortest prefix that exceeds `excess`, or of the whole index. */
  function Cut(index: seq<Item>, excess: nat): (k: nat)
    ensures k <= |index| && (index != [] ==> k > 0)
  {
    if index == [] then 0
    else if excess < index[0].size then 1
    else 1 + Cut(index[1..], excess - index[0].size)
  }

  lemma {:induction false} CutIsCut(index: seq<Item>, excess: nat)
    ensures IsCut(index, excess, Cut(index, excess))
  {
    if index != [] {
      var k, rest := Cut(index, excess), index[1..];
      forall j | 0 < j <= |index|
        ensures Sum(index[..j]) == index[0].size + Sum(rest[..j - 1])
      {
        assert index[..j] == [index[0]] + rest[..j - 1];
        assert index[..j][1..] == rest[..j - 1];
      }
      assert Sum(index[..0]) == 0;
      if excess < index[0].size {
        assert Sum(rest[..0]) == 0;
      } else {
        var less: nat := excess - index[0].size;
        CutIsCut(rest, less);
        assert k < |index| ==> Sum(rest[..k - 1]) > less;
        forall j | 0 <= j < k
          ensures Sum(index[..j]) <= excess
        {
          if j > 0 { assert Sum(rest[..j - 1]) <= less; }
        }
      }
    }
  }

  lemma CutIsUnique(index: seq<Item>, excess: nat, k: nat, k': nat)
    requires IsCut(index, excess, k) && IsCut(index, excess, k')
    ensures k == k'
  {
    CutIsLeast(index, excess, k, k');
    CutIsLeast(index, excess, k', k);
  }

  lemma CutIsLeast(index: seq<Item>, excess: nat, k: nat, j: nat)
    requires IsCut(index, excess, k) && j <= |index|
    requires j < |index| ==> Sum(index[..j]) > excess
    ensures k <= j
  {}

  /** The paths to delete under `quota`, if any. */
  function Asked(index: seq<Item>, total: uint64, quota: uint64): (paths: seq<string>) {
    if quota > total then [] else Paths(index[..Cut(index, total - quota)])
  }

  /** Shrinking twice: when the first request has been carried out, the second shrink with the same
      positive quota asks for nothing exactly when the bytes removed did not exceed the reported
      total. */
  lemma SecondShrinkAsksNothing(entries: seq<Entry>, quota: uint64)
    requires 0 < quota <= Total(entries)
    ensures var paths := Asked(Index(entries), Total(entries), quota);
            var after := entries + Deletes(paths);
            && paths != [] && Index(after) == Index(entries)[|paths|..]
            && (Asked(Index(after), Total(after), quota) == [] <==> Sum(Index(entries)[..|paths|]) <= Total(entries))
  {
    var index, total := Index(entries), Total(entries);
    var excess: nat := total - quota;
    var k := Cut(index, excess);
    CutIsCut(index, excess);
    var paths := Asked(index, total, quota);
    assert paths == Paths(index[..k]) && |paths| == k;
    var after := entries + Deletes(paths);
    ReferenceAgrees(entries);
    ReferenceAgrees(after);
    hide Agrees, Index, Total, Mirror, Sum, IsCut, Cut, Paths, Deletes;
    AgreesTotal(Mirror(entries), index, total, entries);
    ShrinkThenEcho(Mirror(entries), index, total, entries, Mirror(after), Index(after), Total(after), quota, k);
    CutExceeds(index, total, quota, k);
    AgreesTotal(Mirror(after), Index(after), Total(after), after);
    if quota <= Total(after) {
      AskedIsNotEmpty(Index(after), Total(after), quota);
    }
  }

  lemma AgreesTotal(items: map<string, Item>, index: seq<Item>, total: uint64, entries: seq<Entry>)
    requires Agrees(items, index, total, entries)
    ensures total == Wrap(Sum(index))
  {}

  lemma AskedIsNotEmpty(index: seq<Item>, total: uint64, quota: uint64)
    requires total == Wrap(Sum(index)) && 0 < quota <= total
    ensures Asked(index, total, quota) != []
  {
    var k := Cut(index, total - quota);
    assert index != [];
    assert Paths(index[..k])[0] == index[0].path;
  }

  /** The wrapped case is real: the entries of two files of 2^63 bytes and one of 5 report a total of
      5, and a quota of 5 takes only the oldest, which leaves more than the quota. */
  lemma WrappedTotalShrinksTooLittle()
    ensures var huge: uint64 := 0x8000_0000_0000_0000;
            var entries := [File(Item("a", 1, huge)), File(Item("b", 2, huge)), File(Item("c", 3, 5))];
            && Total(entries) == 5 && Asked(Index(entries), 5, 5) == ["a"]
            && Asked(Index(entries + Deletes(["a"])), Total(entries + Deletes(["a"])), 5) != []
  {
    var huge: uint64 := 0x8000_0000_0000_0000;
    var a, b, c := Item("a", 1, huge), Item("b", 2, huge), Item("c", 3, 5);
    var entries := [File(a), File(b), File(c)];
    ThreeArrivals(a, b, c);
    SumThree(a, b, c);
    assert Total(entries) == 5;
    hide Index, Total;
    assert Cut([a, b, c], 0) == 1;
    assert Asked([a, b, c], 5, 5) == Paths([a, b, c][..1]) == ["a"];
    SecondShrinkAsksNothing(entries, 5);
  }

  lemma SumThree(a: Item, b: Item, c: Item)
    ensures Sum([a, b, c]) == a.size + b.size + c.size && Sum([a, b, c][..1]) == a.size
  {
    assert [a, b, c][1..] == [b, c] && [b, c][1..] == [c] && [a, b, c][..1] == [a];
    assert Sum([c]) == c.size && Sum([a]) == a.size;
  }

  lemma ThreeArrivals(a: Item, b: Item, c: Item)
    requires a.path != b.path && b.path != c.path && a.path != c.path
    requires a.modified <= b.modified <= c.modified
    ensures Index([File(a), File(b), File(c)]) == [a, b, c]
  {
    var one, two := [File(a)], [File(a), File(b)];
    assert [] + one == one && one + [File(b)] == two && two + [File(c)] == [File(a), File(b), File(c)];
    assert Arrivals(one) == [a] by { OneMore([], File(a)); }
    assert Arrivals(two) == [a, b] by {
      OneMore(one, File(b));
      NotPresent([a], b.path);
    }
    assert Arrivals(two + [File(c)]) == [a, b, c] by {
      OneMore(two, File(c));
      NotPresent([a, b], c.path);
    }
    StableSortUnique([a, b, c], Sort([a, b, c]), [a, b, c]) by {
      SortIsStable([a, b, c]);
    }
  }

  // ---------------------------------------------------------------- the quota

  /** The quota in bytes as the configuration computes it from megabytes: in 32-bit arithmetic, and
      only then widened. */
  function QuotaBytes(megabytes: nat): uint64 {
    (megabytes * 1024 * 1024) % 0x1_0000_0000
  }

  /** The quota is right exactly up to 4095 MB, and storage is switched off by every multiple of
      4096 MB, zero included. */
  lemma QuotaIsExact(megabytes: nat)
    ensures QuotaBytes(megabytes) == megabytes * 1024 * 1024 <==> megabytes <= 4095
    ensures QuotaBytes(megabytes) == 0 <==> megabytes % 4096 == 0
  {
    var q, r := megabytes / 4096, megabytes % 4096;
    assert megabytes * 1024 * 1024 == q * 0x1_0000_0000 + r * 0x10_0000;
    assert r * 0x10_0000 < 0x1_0000_0000;
  }
}
