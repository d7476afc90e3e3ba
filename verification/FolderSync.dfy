/**
 The life of a folder mirror from startSync on, as a pure transition system over the events
 of DeviceBox/DropboxFolder.cpp: responses to list and continue requests, the update timer,
 answers to delete batches, shrink calls and the shutdown. The class of DropboxFolder is
 proved to follow it.
 */
module FolderSync {

  import opened FolderModel
  import opened Options

  datatype Call = ListFolder(path: string) | ContinueListFolder(cursor: string) | DeleteBatch(paths: seq<string>)

  datatype Page = Page(entries: seq<Entry>, cursor: string, hasMore: bool)

  /** `listing` and `continuing` count the list and continue requests that have not been answered,
      `batches` the delete batches; `timer` is the cursor the update timer waits with. `taken` holds
      the entries of all pages handled, and `answered` counts the posted shutdown callbacks. */
  datatype Sync = Sync(
    listing: nat,
    continuing: nat,
    timer: Option<string>,
    batches: nat,
    shuttingDown: bool,
    answered: nat,
    taken: seq<Entry>,
    calls: seq<Call>)

  const NEW := Sync(0, 0, None, 0, false, 0, [], [])

  datatype Event =
    | ListResponse(code: int, page: Page)
    | UpdateResponse(code: int, page: Page)
    | TimerFires(cursor: string)
    | DeleteResponse
    | Shrink(maxSize: uint64)
    | Shutdown

  function Started(s: Sync, path: string): Sync {
    s.(listing := s.listing + 1, calls := s.calls + [ListFolder(path)])
  }

  /** Only what has been asked for can happen; other events are not events of this folder. */
  predicate Accepts(s: Sync, e: Event) {
    match e
    case ListResponse(_, _) => s.listing > 0
    case UpdateResponse(_, _) => s.continuing > 0
    case TimerFires(cursor) => s.timer == Some(cursor)
    case DeleteResponse => s.batches > 0
    case Shrink(_) => true
    case Shutdown => true
  }

  /** A response is dropped when it failed or comes after a shutdown; otherwise its page is taken and
      the next request or the timer follows. */
  function Answered(s: Sync, code: int, page: Page): Sync {
    if code != 200 || s.shuttingDown then s
    else
      var t := s.(taken := s.taken + page.entries);
      if page.hasMore then Updated(t, page.cursor) else t.(timer := Some(page.cursor))
  }

  function Updated(s: Sync, cursor: string): Sync {
    if s.shuttingDown then s
    else s.(continuing := s.continuing + 1, calls := s.calls + [ContinueListFolder(cursor)])
  }

  function Shrunk(s: Sync, maxSize: uint64): Sync {
    var paths := Asked(Index(s.taken), Total(s.taken), maxSize);
    if s.shuttingDown || paths == [] then s
    else s.(batches := s.batches + 1, calls := s.calls + [DeleteBatch(paths)])
  }

  function Next(s: Sync, e: Event): Sync {
    if !Accepts(s, e) then s
    else
      match e
      case ListResponse(code, page) => Answered(s.(listing := s.listing - 1), code, page)
      case UpdateResponse(code, page) => Answered(s.(continuing := s.continuing - 1), code, page)
      case TimerFires(cursor) => Updated(s.(timer := None), cursor)
      case DeleteResponse => s.(batches := s.batches - 1)
      case Shrink(maxSize) => Shrunk(s, maxSize)
      case Shutdown => s.(shuttingDown := true, answered := s.answered + 1)
  }

  function Fold(s: Sync, events: seq<Event>): Sync
    decreases |events|
  {
    if events == [] then s else Fold(Next(s, events[0]), events[1..])
  }

  /** The state after startSync on a new folder and then `events`. */
  function After(path: string, events: seq<Event>): Sync {
    Fold(Started(NEW, path), events)
  }

  lemma {:induction false} FoldSnoc(s: Sync, events: seq<Event>, e: Event)
    ensures Fold(s, events + [e]) == Next(Fold(s, events), e)
    decreases |events|
  {
    if events == [] {
      assert events + [e] == [e] && [e][1..] == [];
    } else {
      assert (events + [e])[1..] == events[1..] + [e];
      FoldSnoc(Next(s, events[0]), events[1..], e);
    }
  }

  // ---------------------------------------------------------------- one request at a time

  function Outstanding(s: Sync): nat {
    s.listing + s.continuing + (if s.timer.Some? then 1 else 0)
  }

  /** At any time after one startSync at most one list request, continue request or timer is
      outstanding. */
  lemma {:induction false} AtMostOneOutstanding(s: Sync, events: seq<Event>)
    requires Outstanding(s) <= 1
    ensures Outstanding(Fold(s, events)) <= 1
    decreases |events|
  {
    if events != [] {
      AtMostOneOutstanding(Next(s, events[0]), events[1..]);
    }
  }

  /** After a shutdown no entry is taken and nothing is called, whatever still happens. */
  lemma {:induction false} NothingAfterShutdown(s: Sync, events: seq<Event>)
    requires s.shuttingDown
    ensures var t := Fold(s, events);
            t.shuttingDown && t.taken == s.taken && t.calls == s.calls && Outstanding(t) <= Outstanding(s)
    decreases |events|
  {
    if events != [] {
      NothingAfterShutdown(Next(s, events[0]), events[1..]);
    }
  }

  // ---------------------------------------------------------------- pages

  function Joined(pages: seq<Page>): seq<Entry> {
    if pages == [] then [] else pages[0].entries + Joined(pages[1..])
  }

  /** The page that an event brings to a folder in state `s`, if it is taken. */
  function TakenPage(s: Sync, e: Event): seq<Page> {
    if (e.ListResponse? || e.UpdateResponse?) && Accepts(s, e) && e.code == 200 && !s.shuttingDown then [e.page]
    else []
  }

  function TakenPages(s: Sync, events: seq<Event>): seq<Page>
    decreases |events|
  {
    if events == [] then [] else TakenPage(s, events[0]) + TakenPages(Next(s, events[0]), events[1..])
  }

  lemma {:induction false} TakenIsJoined(s: Sync, events: seq<Event>)
    ensures Fold(s, events).taken == s.taken + Joined(TakenPages(s, events))
    decreases |events|
  {
    assert Joined([]) == [];
    if events != [] {
      hide Next, TakenPage, Joined;
      var t, first := Next(s, events[0]), TakenPage(s, events[0]);
      TakenIsJoined(t, events[1..]);
      JoinedConcat(first, TakenPages(t, events[1..]));
      StepTakes(s, events[0]);
    }
  }

  lemma StepTakes(s: Sync, e: Event)
    ensures Next(s, e).taken == s.taken + Joined(TakenPage(s, e))
  {
    assert TakenPage(s, e) != [] ==> TakenPage(s, e)[1..] == [];
  }

  lemma {:induction false} JoinedConcat(a: seq<Page>, b: seq<Page>)
    ensures Joined(a + b) == Joined(a) + Joined(b)
  {
    if a == [] {
      assert a + b == b;
    } else {
      JoinedConcat(a[1..], b);
      assert (a + b)[1..] == a[1..] + b;
      Rejoin(a[0].entries, Joined(a[1..]), Joined(b));
    }
  }

  lemma Rejoin<T>(p: seq<T>, q: seq<T>, r: seq<T>)
    ensures p + (q + r) == p + q + r
  {}

  /** The listing cut into pages: all but the last one announce more. */
  predicate IsListing(pages: seq<Page>) {
    pages != [] && forall i :: 0 <= i < |pages| ==> (pages[i].hasMore <==> i < |pages| - 1)
  }

  function Updates(pages: seq<Page>): seq<Event> {
    if pages == [] then [] else [UpdateResponse(200, pages[0])] + Updates(pages[1..])
  }

  function Responses(pages: seq<Page>): seq<Event>
    requires pages != []
  {
    [ListResponse(200, pages[0])] + Updates(pages[1..])
  }

  /** Wherever a listing is cut into pages, all of its entries are taken, in order, and the timer then
      waits with the cursor of the last page. */
  lemma {:induction false} ListingIsTaken(path: string, pages: seq<Page>)
    requires IsListing(pages)
    ensures var s := After(path, Responses(pages));
            s.taken == Joined(pages) && s.timer == Some(pages[|pages| - 1].cursor) && Outstanding(s) == 1
  {
    var s := Next(Started(NEW, path), ListResponse(200, pages[0]));
    var rest := Updates(pages[1..]);
    assert Responses(pages)[0] == ListResponse(200, pages[0]) && Responses(pages)[1..] == rest;
    assert After(path, Responses(pages)) == Fold(s, rest);
    assert [] + pages[0].entries == pages[0].entries;
    JoinedCons([], pages);
    if |pages| > 1 {
      assert s.continuing == 1 && s.timer.None?;
      UpdatesAreTaken(s, pages[1..]);
      assert pages[1..][|pages| - 2] == pages[|pages| - 1];
      assert [] + Joined(pages) == Joined(pages);
    } else {
      assert rest == [] && !pages[0].hasMore;
      assert Fold(s, []) == s;
    }
  }

  lemma {:induction false} UpdatesAreTaken(s: Sync, pages: seq<Page>)
    requires IsListing(pages) && !s.shuttingDown && s.continuing == 1 && s.listing == 0 && s.timer.None?
    ensures var t := Fold(s, Updates(pages));
            && t.taken == s.taken + Joined(pages)
            && t.timer == Some(pages[|pages| - 1].cursor) && t.continuing == t.listing == 0
    decreases |pages|
  {
    hide Joined;
    var first, rest := pages[0], pages[1..];
    var t := Next(s, UpdateResponse(200, first));
    UpdatesCons(s, pages);
    JoinedCons(s.taken, pages);
    if rest != [] {
      assert t.taken == s.taken + first.entries && t.continuing == 1;
      assert rest[|rest| - 1] == pages[|pages| - 1];
      UpdatesAreTaken(t, rest);
    } else {
      assert Fold(t, Updates(rest)) == t;
    }
  }

  lemma UpdatesCons(s: Sync, pages: seq<Page>)
    requires pages != []
    ensures Fold(s, Updates(pages)) == Fold(Next(s, UpdateResponse(200, pages[0])), Updates(pages[1..]))
  {
    assert Updates(pages)[1..] == Updates(pages[1..]);
  }

  lemma JoinedCons(taken: seq<Entry>, pages: seq<Page>)
    requires pages != []
    ensures taken + Joined(pages) == taken + pages[0].entries + Joined(pages[1..])
    ensures |pages| == 1 ==> Joined(pages) == pages[0].entries
  {
    Rejoin(taken, pages[0].entries, Joined(pages[1..]));
    if |pages| == 1 { assert pages[1..] == []; }
  }

  // ---------------------------------------------------------------- calls

  /** The list and continue requests among some calls, and the delete batches. */
  function Requests(calls: seq<Call>): seq<Call> {
    if calls == [] then []
    else (if calls[0].DeleteBatch? then [] else [calls[0]]) + Requests(calls[1..])
  }

  function Batches(calls: seq<Call>): seq<Call> {
    if calls == [] then []
    else (if calls[0].DeleteBatch? then [calls[0]] else []) + Batches(calls[1..])
  }

  lemma {:induction false} CallsConcat(a: seq<Call>, b: seq<Call>)
    ensures Requests(a + b) == Requests(a) + Requests(b)
    ensures Batches(a + b) == Batches(a) + Batches(b)
  {
    if a == [] {
      assert a + b == b;
    } else {
      CallsConcat(a[1..], b);
      assert (a + b)[1..] == a[1..] + b;
      Rejoin(if a[0].DeleteBatch? then [] else [a[0]], Requests(a[1..]), Requests(b));
      Rejoin(if a[0].DeleteBatch? then [a[0]] else [], Batches(a[1..]), Batches(b));
    }
  }

  /** The cursor with which the next page is due: that of a page that announces more, or the one of an
      update timer that fires before a shutdown. */
  function Due(s: Sync, e: Event): seq<string> {
    if s.shuttingDown || !Accepts(s, e) then []
    else
      match e
      case ListResponse(code, page) => if code == 200 && page.hasMore then [page.cursor] else []
      case UpdateResponse(code, page) => if code == 200 && page.hasMore then [page.cursor] else []
      case TimerFires(cursor) => [cursor]
      case _ => []
  }

  function Continues(cursors: seq<string>): seq<Call> {
    if cursors == [] then [] else [ContinueListFolder(cursors[0])] + Continues(cursors[1..])
  }

  function DueAfter(s: Sync, events: seq<Event>): seq<string>
    decreases |events|
  {
    if events == [] then [] else Due(s, events[0]) + DueAfter(Next(s, events[0]), events[1..])
  }

  /** What an event calls: at most one continue request, with the cursor that is due, or one batch. */
  lemma StepCalls(s: Sync, e: Event)
    ensures s.calls <= Next(s, e).calls
    ensures Requests(Next(s, e).calls) == Requests(s.calls) + Continues(Due(s, e))
    ensures |Batches(Next(s, e).calls)| - |Batches(s.calls)|
         == Next(s, e).batches - s.batches + (if e.DeleteResponse? && s.batches > 0 then 1 else 0)
  {
    var t := Next(s, e);
    if t.calls != s.calls {
      var c := t.calls[|s.calls|];
      assert t.calls == s.calls + [c] && [c][1..] == [];
      CallsConcat(s.calls, [c]);
      assert Due(s, e) != [] ==> Due(s, e)[1..] == [] && Continues(Due(s, e)) == [ContinueListFolder(Due(s, e)[0])];
    }
  }

  lemma {:induction false} ContinuesConcat(a: seq<string>, b: seq<string>)
    ensures Continues(a + b) == Continues(a) + Continues(b)
  {
    if a == [] {
      assert a + b == b;
    } else {
      ContinuesConcat(a[1..], b);
      assert (a + b)[1..] == a[1..] + b;
    }
  }

  /** Over every run the requests are the list request for the path and then, in order, one continue
      request for each cursor that was due. */
  lemma RequestsExactly(path: string, events: seq<Event>)
    ensures Requests(After(path, events).calls)
         == [ListFolder(path)] + Continues(DueAfter(Started(NEW, path), events))
  {
    var s := Started(NEW, path);
    assert s.calls == [ListFolder(path)] && s.calls[1..] == [];
    assert Requests(s.calls) == [ListFolder(path)];
    hide Requests, Continues, DueAfter, Fold;
    FoldRequests(s, events);
  }

  lemma {:induction false} FoldRequests(s: Sync, events: seq<Event>)
    ensures Requests(Fold(s, events).calls) == Requests(s.calls) + Continues(DueAfter(s, events))
    decreases |events|
  {
    if events != [] {
      hide Next, Due;
      var t := Next(s, events[0]);
      StepCalls(s, events[0]);
      FoldRequests(t, events[1..]);
      ContinuesConcat(Due(s, events[0]), DueAfter(t, events[1..]));
    }
  }

  /** Answers to delete batches that are accepted, and shutdowns. */
  function BatchAnswers(s: Sync, events: seq<Event>): nat
    decreases |events|
  {
    if events == [] then 0
    else (if events[0].DeleteResponse? && s.batches > 0 then 1 else 0) + BatchAnswers(Next(s, events[0]), events[1..])
  }

  function Shutdowns(events: seq<Event>): nat {
    if events == [] then 0 else (if events[0].Shutdown? then 1 else 0) + Shutdowns(events[1..])
  }

  /** Over every run the batches outstanding are those called and not answered, and the shutdown callback
      has been posted once per shutdown. */
  lemma {:induction false} CountsExactly(s: Sync, events: seq<Event>)
    ensures var t := Fold(s, events);
            && t.batches + BatchAnswers(s, events) == s.batches + |Batches(t.calls)| - |Batches(s.calls)|
            && t.answered == s.answered + Shutdowns(events)
    decreases |events|
  {
    if events != [] {
      StepCalls(s, events[0]);
      AnswersStep(s, events[0]);
      hide Next, Batches;
      CountsExactly(Next(s, events[0]), events[1..]);
    }
  }

  lemma AnswersStep(s: Sync, e: Event)
    ensures Next(s, e).answered == s.answered + (if e.Shutdown? then 1 else 0)
  {}

  /** A shrink outside of a shutdown calls exactly one batch, with the paths that the entries taken and the
      quota ask for, and none when they ask for nothing. */
  lemma ShrinkCalls(path: string, events: seq<Event>, maxSize: uint64)
    requires Shutdown !in events
    ensures var s := After(path, events);
            var paths := Asked(Index(s.taken), Total(s.taken), maxSize);
            After(path, events + [Shrink(maxSize)]).calls
              == s.calls + (if paths == [] then [] else [DeleteBatch(paths)])
  {
    FoldSnoc(Started(NEW, path), events, Shrink(maxSize));
    ShuttingDownExactly(Started(NEW, path), events);
  }

  /** The timer always waits with the cursor of the last page taken, which announced no more. */
  lemma {:induction false} TimerIsLastCursor(s: Sync, events: seq<Event>)
    requires s.timer.None? && Outstanding(s) <= 1
    ensures var t, pages := Fold(s, events), TakenPages(s, events);
            t.timer.Some? ==>
              && pages != [] && t.timer == Some(pages[|pages| - 1].cursor) && !pages[|pages| - 1].hasMore
    decreases |events|
  {
    if events != [] {
      var n := |events| - 1;
      var before, e := events[..n], events[n];
      assert events == before + [e];
      TimerIsLastCursor(s, before);
      AtMostOneOutstanding(s, before);
      FoldSnoc(s, before, e);
      TakenSnoc(s, before, e);
      TimerStep(Fold(s, before), e);
    }
  }

  lemma TimerStep(s: Sync, e: Event)
    ensures var t, page := Next(s, e), TakenPage(s, e);
            t.timer.Some? ==>
              t.timer == if page == [] || page[0].hasMore then s.timer else Some(page[0].cursor)
    ensures Outstanding(s) <= 1 && TakenPage(s, e) != [] ==> s.timer.None?
  {}

  lemma {:induction false} TakenSnoc(s: Sync, events: seq<Event>, e: Event)
    ensures TakenPages(s, events + [e]) == TakenPages(s, events) + TakenPage(Fold(s, events), e)
    decreases |events|
  {
    if events == [] {
      assert events + [e] == [e] && [e][1..] == [];
    } else {
      assert (events + [e])[1..] == events[1..] + [e];
      TakenSnoc(Next(s, events[0]), events[1..], e);
    }
  }

  // ---------------------------------------------------------------- references

  /** What active() says: an unanswered request or batch, or the timer, holds a reference. */
  predicate Active(s: Sync) {
    Outstanding(s) > 0 || s.batches > 0
  }

  /** An event at which a synchronisation ends: an accepted response that failed, or an accepted
      response or timer with a shutdown somewhere before it. */
  predicate EndsAt(path: string, events: seq<Event>, i: nat)
    requires i < |events|
  {
    Accepts(After(path, events[..i]), events[i]) &&
    match events[i]
    case ListResponse(code, _) => code != 200 || Shutdown in events[..i]
    case UpdateResponse(code, _) => code != 200 || Shutdown in events[..i]
    case TimerFires(_) => Shutdown in events[..i]
    case _ => false
  }

  lemma {:induction false} ShuttingDownExactly(s: Sync, events: seq<Event>)
    ensures Fold(s, events).shuttingDown <==> s.shuttingDown || Shutdown in events
    ensures Fold(s, events).answered >= s.answered + (if Shutdown in events then 1 else 0)
    decreases |events|
  {
    if events != [] {
      ShuttingDownExactly(Next(s, events[0]), events[1..]);
      assert events == [events[0]] + events[1..];
    }
  }

  /** In every run from one startSync the folder is active exactly when a delete batch is unanswered or
      no response has failed and no response or timer has come after a shutdown. A shutdown releases
      nothing and answers at once. */
  lemma ActiveExactly(path: string, events: seq<Event>)
    ensures var s := After(path, events);
            && (Active(s) <==> s.batches > 0 || forall i :: 0 <= i < |events| ==> !EndsAt(path, events, i))
            && (Shutdown in events ==> s.answered > 0)
  {
    OutstandingExactly(path, events);
    ShuttingDownExactly(Started(NEW, path), events);
  }

  lemma {:induction false} OutstandingExactly(path: string, events: seq<Event>)
    ensures Outstanding(After(path, events)) ==
              if forall i :: 0 <= i < |events| ==> !EndsAt(path, events, i) then 1 else 0
    decreases |events|
  {
    if events != [] {
      var n := |events| - 1;
      var before, e := events[..n], events[n];
      var s := After(path, before);
      assert events == before + [e];
      OutstandingExactly(path, before);
      FoldSnoc(Started(NEW, path), before, e);
      ShuttingDownExactly(Started(NEW, path), before);
      EndsBefore(path, events, n);
      StepOutstanding(s, e);
      assert EndsAt(path, events, n) <==> Ends(s, e);
    }
  }

  predicate Ends(s: Sync, e: Event) {
    Accepts(s, e) &&
    match e
    case ListResponse(code, _) => code != 200 || s.shuttingDown
    case UpdateResponse(code, _) => code != 200 || s.shuttingDown
    case TimerFires(_) => s.shuttingDown
    case _ => false
  }

  lemma StepOutstanding(s: Sync, e: Event)
    requires Outstanding(s) <= 1
    ensures Outstanding(Next(s, e)) == if Ends(s, e) then 0 else Outstanding(s)
  {}

  lemma EndsBefore(path: string, events: seq<Event>, n: nat)
    requires n == |events| - 1
    ensures forall i :: 0 <= i < n ==> (EndsAt(path, events[..n], i) <==> EndsAt(path, events, i))
  {
    forall i | 0 <= i < n
      ensures EndsAt(path, events[..n], i) <==> EndsAt(path, events, i)
    {
      assert events[..n][..i] == events[..i];
    }
  }

  /** The shortest such run: a shutdown right after startSync answers while the folder is active. */
  lemma ShutdownLeavesItActive(path: string)
    ensures var s := After(path, [Shutdown]);
            s.answered == 1 && Active(s)
  {
    assert [Shutdown][1..] == [];
  }
}
