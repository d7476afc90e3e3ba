/**
 DeviceBox/DropboxFolder.cpp: the mirror of one cloud folder. The map, the index and the
 byte total are updated in place, entry by entry; `Valid` ties them to the reference of
 FolderModel on `handled`, the entries of all pages handled so far, and every method takes
 the step of FolderSync that it stands for.
 */
module DropboxFolder {

  import opened Options
  import opened FolderModel
  import opened FolderSync

  // ---------------------------------------------------------------- std::lower_bound, std::upper_bound, std::find_if

  function LowerBound(s: seq<Item>, lo: nat, hi: nat, t: int): (r: nat)
    requires lo <= hi <= |s|
    ensures lo <= r <= hi
    ensures Sorted(s) ==> forall i :: lo <= i < r ==> s[i].modified < t
    ensures Sorted(s) ==> forall i :: r <= i < hi ==> s[i].modified >= t
    decreases hi - lo
  {
    if lo == hi then lo
    else
      var mid := lo + (hi - lo) / 2;
      if s[mid].modified < t then LowerBound(s, mid + 1, hi, t) else LowerBound(s, lo, mid, t)
  }

  function UpperBound(s: seq<Item>, lo: nat, hi: nat, t: int): (r: nat)
    requires lo <= hi <= |s|
    ensures lo <= r <= hi
    ensures Sorted(s) ==> forall i :: lo <= i < r ==> s[i].modified <= t
    ensures Sorted(s) ==> forall i :: r <= i < hi ==> s[i].modified > t
    decreases hi - lo
  {
    if lo == hi then lo
    else
      var mid := lo + (hi - lo) / 2;
      if t < s[mid].modified then UpperBound(s, lo, mid, t) else UpperBound(s, mid + 1, hi, t)
  }

  function FindPath(s: seq<Item>, lo: nat, hi: nat, path: string): (r: nat)
    requires lo <= hi <= |s|
    ensures lo <= r <= hi
    ensures r < hi ==> s[r].path == path
    ensures forall i :: lo <= i < r ==> s[i].path != path
    decreases hi - lo
  {
    if lo == hi || s[lo].path == path then lo else FindPath(s, lo + 1, hi, path)
  }

  /** The three searches of eraseItem in a row: the slot of the live item of `path`. */
  function Slot(s: seq<Item>, it: Item): (r: nat)
    ensures r <= |s|
  {
    var lower := LowerBound(s, 0, |s|, it.modified);
    var upper := UpperBound(s, lower, |s|, it.modified);
    FindPath(s, lower, upper, it.path)
  }

  /** The search always ends on the one slot of that item, strictly inside the range with its
      timestamp: the erased iterator is never the end of the range. */
  lemma SlotFound(items: map<string, Item>, index: seq<Item>, path: string)
    requires Sorted(index) && Indexes(index, items) && path in items
    ensures var it := items[path];
            var lower := LowerBound(index, 0, |index|, it.modified);
            var upper := UpperBound(index, lower, |index|, it.modified);
            var r := Slot(index, it);
            && lower <= r < upper && index[r] == it && it.path == path
            && (forall i :: lower <= i < upper && index[i].path == path ==> i == r)
  {
    hide LowerBound, UpperBound, FindPath;
    var it := items[path];
    assert it in index;
    var k :| 0 <= k < |index| && index[k] == it;
  }

  lemma EmptyPrefix(index: seq<Item>)
    ensures Sum(index[..0]) == 0 && Paths(index[..0]) == []
  {}

  lemma PrefixStep(index: seq<Item>, k: nat)
    requires k < |index|
    ensures Paths(index[..k + 1]) == Paths(index[..k]) + [index[k].path]
    ensures Sum(index[..k + 1]) == Sum(index[..k]) + index[k].size
  {
    LastStepIsOneItem(index, k + 1);
  }

  lemma CutFound(index: seq<Item>, excess: nat, k: nat)
    requires k <= |index| && (k < |index| ==> Sum(index[..k]) > excess)
    requires forall j :: 0 <= j < k ==> Sum(index[..j]) <= excess
    ensures IsCut(index, excess, k)
  {}

  /** The loop of shrinkFolder: the paths of the shortest prefix that exceeds `bytes`. */
  method Oldest(index: seq<Item>, bytes: uint64) returns (removeList: seq<string>)
    ensures |removeList| <= |index| && removeList == Paths(index[..|removeList|])
    ensures IsCut(index, bytes, |removeList|) && |removeList| == Cut(index, bytes)
  {
    hide Paths, Sum, IsCut, Cut;
    EmptyPrefix(index);
    var removeSize: nat := bytes;
    removeList := [];
    for i := 0 to |index|
      invariant |removeList| == i && removeList == Paths(index[..i])
      invariant removeSize + Sum(index[..i]) == bytes
      invariant forall j :: 0 <= j < i ==> Sum(index[..j]) <= bytes
    {
      PrefixStep(index, i);
      removeList := removeList + [index[i].path];
      if removeSize < index[i].size {
        removeSize := 0;
        break;
      }
      removeSize := removeSize - index[i].size;
    }
    CutFound(index, bytes, |removeList|);
    CutIsCut(index, bytes);
    CutIsUnique(index, bytes, |removeList|, Cut(index, bytes));
  }

  lemma AskedIsCut(index: seq<Item>, total: uint64, quota: uint64)
    ensures quota > total || index == [] ==> Asked(index, total, quota) == []
    ensures quota <= total && index != [] ==>
              && Asked(index, total, quota) != []
              && exists k :: 0 < k <= |index| && IsCut(index, total - quota, k)
                          && Asked(index, total, quota) == Paths(index[..k])
  {
    if quota <= total && index != [] {
      hide IsCut, Cut;
      CutIsCut(index, total - quota);
    }
  }

  lemma OldestIsAsked(index: seq<Item>, total: uint64, quota: uint64, removeList: seq<string>)
    requires quota <= total && |removeList| <= |index| && |removeList| == Cut(index, total - quota)
    requires removeList == Paths(index[..|removeList|])
    ensures removeList == Asked(index, total, quota)
  {}

  lemma EmptyHasNoBytes(items: map<string, Item>, index: seq<Item>, total: uint64, entries: seq<Entry>)
    requires Agrees(items, index, total, entries)
    ensures index == [] ==> total == 0
  {
    hide IsStableSort, Indexes;
  }

  lemma AgreesIsSorted(items: map<string, Item>, index: seq<Item>, total: uint64, entries: seq<Entry>)
    requires Agrees(items, index, total, entries)
    ensures Sorted(index)
  {}

  class Folder {
    var items: map<string, Item>
    var index: seq<Item>
    var folderSize: uint64
    var shuttingDown: bool

    var calls: seq<Call>       // calls into Dropbox so far
    var listing: nat           // list requests not answered yet
    var continuing: nat        // continue requests not answered yet
    var batches: nat           // delete batches not answered yet
    var timer: Option<string>  // the cursor of the update timer, when it is armed
    var answered: nat          // shutdown callbacks posted so far
    ghost var handled: seq<Entry>

    ghost predicate Valid()
      reads this
    {
      Agrees(items, index, folderSize, handled)
    }

    ghost function View(): Sync
      reads this
    {
      Sync(listing, continuing, timer, batches, shuttingDown, answered, handled, calls)
    }

    constructor ()
      ensures Valid() && View() == NEW
    {
      items, index, folderSize, shuttingDown := map[], [], 0, false;
      calls, listing, continuing, batches, timer, answered, handled := [], 0, 0, 0, None, 0, [];
    }

    predicate IsActive()
      reads this
      ensures IsActive() == Active(View())
    {
      listing > 0 || continuing > 0 || timer.Some? || batches > 0
    }

    method StartSync(path: string)
      requires Valid() && !shuttingDown
      modifies this`calls, this`listing
      ensures Valid() && View() == Started(old(View()), path)
    {
      calls := calls + [ListFolder(path)];
      listing := listing + 1;
    }

    method OnListFolderResponse(code: int, page: Page)
      requires Valid() && listing > 0
      modifies this`items, this`index, this`folderSize, this`handled
      modifies this`calls, this`listing, this`continuing, this`timer
      ensures Valid() && View() == Next(old(View()), ListResponse(code, page))
      ensures old(shuttingDown) || code != 200 ==> Untouched(old(items), old(index), old(folderSize))
    {
      listing := listing - 1;
      if code != 200 { return; }
      if shuttingDown { return; }
      HandleFolderResponse(page);
    }

    method OnUpdateResponse(code: int, page: Page)
      requires Valid() && continuing > 0
      modifies this`items, this`index, this`folderSize, this`handled
      modifies this`calls, this`continuing, this`timer
      ensures Valid() && View() == Next(old(View()), UpdateResponse(code, page))
      ensures old(shuttingDown) || code != 200 ==> Untouched(old(items), old(index), old(folderSize))
    {
      continuing := continuing - 1;
      if code != 200 { return; }
      if shuttingDown { return; }
      HandleFolderResponse(page);
    }

    method OnTimer(cursor: string)
      requires Valid() && timer == Some(cursor)
      modifies this`calls, this`continuing, this`timer
      ensures Valid() && View() == Next(old(View()), TimerFires(cursor))
    {
      timer := None;
      Update(cursor);
    }

    ghost predicate Untouched(items': map<string, Item>, index': seq<Item>, folderSize': uint64)
      reads this
    {
      items == items' && index == index' && folderSize == folderSize'
    }

    method Update(cursor: string)
      requires Valid()
      modifies this`calls, this`continuing
      ensures Valid() && View() == Updated(old(View()), cursor)
    {
      if shuttingDown { return; }
      calls := calls + [ContinueListFolder(cursor)];
      continuing := continuing + 1;
    }

    method HandleFolderResponse(page: Page)
      requires Valid() && !shuttingDown
      modifies this`items, this`index, this`folderSize, this`handled
      modifies this`calls, this`continuing, this`timer
      ensures Valid() && View() == Answered(old(View()), 200, page)
    {
      hide Agrees;
      var i := 0;
      while i < |page.entries|
        invariant i <= |page.entries|
        invariant Valid()
        invariant View() == old(View()).(taken := old(handled) + page.entries[..i])
      {
        HandleEntry(page.entries[i]);
        assert page.entries[..i + 1] == page.entries[..i] + [page.entries[i]];
        i := i + 1;
      }
      assert page.entries[..i] == page.entries;
      if page.hasMore {
        Update(page.cursor);
      } else {
        timer := Some(page.cursor);
      }
    }

    method HandleEntry(e: Entry)
      requires Agrees(items, index, folderSize, handled) && !shuttingDown
      modifies this`items, this`index, this`folderSize, this`handled
      ensures Agrees(items, index, folderSize, handled)
      ensures handled == old(handled) + [e]
    {
      hide Arrivals, Mirror, IsStableSort, Indexes;
      match e
      case File(item) =>
        ghost var before := handled;
        EraseItem(item.path);
        AgreesIsSorted(items, index, folderSize, handled);
        var k := UpperBound(index, 0, |index|, item.modified);
        AgreesAfterInsert(items, index, folderSize, before, item, k, index[..k] + [item] + index[k..]);
        items := items[item.path := item];
        index := index[..k] + [item] + index[k..];
        folderSize := Wrap(folderSize + item.size);
        handled := before + [e];
      case Deleted(path) =>
        EraseItem(path);
      case Folder(_) =>
        AgreesAfterIgnored(items, index, folderSize, handled, e);
        handled := handled + [e];
      case OtherTag =>
        AgreesAfterIgnored(items, index, folderSize, handled, e);
        handled := handled + [e];
    }

    /** Removes the live item of `path`, if any, from all three views. */
    method EraseItem(path: string)
      requires Agrees(items, index, folderSize, handled) && !shuttingDown
      modifies this`items, this`index, this`folderSize, this`handled
      ensures Agrees(items, index, folderSize, handled)
      ensures handled == old(handled) + [Deleted(path)]
    {
      hide Arrivals, Mirror, IsStableSort, Indexes, Sorted, Without, LowerBound, UpperBound;
      AgreesIsSorted(items, index, folderSize, handled);
      if path in items {
        var it := items[path];
        SlotFound(items, index, path);
        var oldIt := Slot(index, it);
        var index' := index[..oldIt] + index[oldIt + 1..];
        var folderSize' := Wrap(folderSize - it.size);
        AgreesAfterErase(items, index, folderSize, handled, path, oldIt, index', folderSize');
        folderSize := folderSize';
        index := index';
        items := items - {path};
      } else {
        AgreesAfterIgnored(items, index, folderSize, handled, Deleted(path));
      }
      handled := handled + [Deleted(path)];
    }

    /** shrinkFolder: asks for the deletion of the shortest oldest-first prefix that brings the
        folder strictly below the quota; an exact fit is not enough. */
    method ShrinkFolder(maxSize: uint64)
      requires Valid()
      modifies this`calls, this`batches
      ensures Valid() && View() == Next(old(View()), Shrink(maxSize))
      ensures shuttingDown || maxSize > folderSize ==> calls == old(calls)
      ensures !shuttingDown && maxSize <= folderSize && index == [] ==> calls == old(calls)
      ensures !shuttingDown && maxSize <= folderSize && index != [] ==>
                exists k :: 0 < k <= |index| && IsCut(index, folderSize - maxSize, k)
                         && calls == old(calls) + [DeleteBatch(Paths(index[..k]))]
      ensures maxSize > 0 && index == [] ==> maxSize > folderSize
    {
      hide Agrees, Paths, IsCut, Index, Total, Asked;
      EmptyHasNoBytes(items, index, folderSize, handled);
      AgreesIsReference(items, index, folderSize, handled);
      AskedIsCut(index, folderSize, maxSize);
      if shuttingDown || maxSize > folderSize { return; }
      var removeList := Oldest(index, folderSize - maxSize);
      OldestIsAsked(index, folderSize, maxSize, removeList);
      if removeList == [] { return; }
      calls := calls + [DeleteBatch(removeList)];
      batches := batches + 1;
    }

    /** The answer to a delete batch is ignored; only its reference goes. */
    method OnDeleteResponse()
      requires Valid() && batches > 0
      modifies this`batches
      ensures Valid() && View() == Next(old(View()), DeleteResponse)
    {
      batches := batches - 1;
    }

    /** The callback is posted at once, whether or not anything still refers to the folder. */
    method ShutdownFolder()
      requires Valid()
      modifies this`shuttingDown, this`answered
      ensures Valid() && View() == Next(old(View()), Shutdown) && IsActive() == old(IsActive())
    {
      shuttingDown := true;
      answered := answered + 1;
    }

    method Handle(e: Event)
      requires Valid()
      modifies this
      ensures Valid() && View() == Next(old(View()), e)
      ensures old(shuttingDown) ==> Untouched(old(items), old(index), old(folderSize))
    {
      hide Agrees, Answered, Updated, Shrunk;
      match e {
        case ListResponse(code, page) => if listing > 0 { OnListFolderResponse(code, page); }
        case UpdateResponse(code, page) => if continuing > 0 { OnUpdateResponse(code, page); }
        case TimerFires(cursor) => if timer == Some(cursor) { OnTimer(cursor); }
        case DeleteResponse => if batches > 0 { OnDeleteResponse(); }
        case Shrink(maxSize) => ShrinkFolder(maxSize);
        case Shutdown => ShutdownFolder();
      }
    }

    /** Any run: the object ends in the state that the events determine, and its three views are the
        reference on exactly the entries of the pages taken. */
    method Run(events: seq<Event>)
      requires Valid()
      modifies this
      ensures Valid() && View() == Fold(old(View()), events)
      ensures var taken := Fold(old(View()), events).taken;
              items == Mirror(taken) && index == Index(taken) && folderSize == Total(taken)
      ensures old(shuttingDown) ==> Untouched(old(items), old(index), old(folderSize))
    {
      hide Agrees, Next, Index, Total;
      var i := 0;
      while i < |events|
        invariant i <= |events| && Valid()
        invariant View() == Fold(old(View()), events[..i])
        invariant old(shuttingDown) ==> shuttingDown && Untouched(old(items), old(index), old(folderSize))
      {
        FoldSnoc(old(View()), events[..i], events[i]);
        assert events[..i + 1] == events[..i] + [events[i]];
        NextKeepsShutdown(View(), events[i]);
        Handle(events[i]);
        i := i + 1;
      }
      assert events[..i] == events;
      AgreesIsReference(items, index, folderSize, handled);
    }
  }

  lemma NextKeepsShutdown(s: Sync, e: Event)
    ensures s.shuttingDown ==> Next(s, e).shuttingDown
  {}

  /** Two folders after any runs, with any paging, failures and shrinking in between: when the pages
      they have taken join to the same entries, they hold the same mirror. */
  lemma PagingDoesNotMatter(f: Folder, path: string, events: seq<Event>,
                            g: Folder, path': string, events': seq<Event>)
    requires f.Valid() && f.View() == After(path, events)
    requires g.Valid() && g.View() == After(path', events')
    requires Joined(TakenPages(Started(NEW, path), events)) == Joined(TakenPages(Started(NEW, path'), events'))
    ensures f.items == g.items && f.index == g.index && f.folderSize == g.folderSize
  {
    TakenIsJoined(Started(NEW, path), events);
    TakenIsJoined(Started(NEW, path'), events');
    ViewsAreDetermined(f.items, f.index, f.folderSize, g.items, g.index, g.folderSize, f.handled);
  }
}
