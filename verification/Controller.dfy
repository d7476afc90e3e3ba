/**
 The source table and the shutdown chain of DeviceBox/Controller.cpp, over the objects of
 StreamingHandlers. The whole object graph refines the Teardown model step by step.
 */
module Controllers {

  import opened Teardown
  import opened StreamingHandlers

  class Controller {
    const io: IoService
    var handlers: map<SourceId, StreamingHandler>

    // bookkeeping of the model: see Teardown.State
    ghost var stopping: bool
    ghost var stopped: set<SourceId>
    ghost var removed: seq<SourceId>
    ghost var stops: nat
    ghost var finishes: nat

    /** Every handler knows its source and posts to the same queue, so that the handlers and their
        streamers are all different objects. */
    ghost predicate Valid()
      reads this, handlers.Values
    {
      forall k :: k in handlers ==> handlers[k].Valid() && handlers[k].source == k && handlers[k].io == io
    }

    ghost function Streamers(): set<object>
      reads this, handlers.Values
    {
      set k | k in handlers && handlers[k].streamer != null :: handlers[k].streamer as object
    }

    ghost function Abs(): State
      reads this, io, handlers.Values, Streamers()
    {
      State(io.queue, map k | k in handlers :: handlers[k].View(), stopping, stopped, removed, stops, finishes)
    }

    constructor (io: IoService)
      requires io.queue == []
      ensures this.io == io && Valid() && Abs() == INITIAL
    {
      this.io := io;
      handlers := map[];
      stopping, stopped, removed, stops, finishes := false, {}, [], 0, 0;
    }

    method StartHandleSource(source: SourceId)
      requires Valid()
      modifies this`handlers
      ensures Valid() && Abs() == Step(old(Abs()), Start(source))
      ensures fresh(handlers.Values - old(handlers.Values)) && Streamers() <= old(Streamers())
    {
      if source !in handlers {
        var h := new StreamingHandler(io, source);
        handlers := handlers[source := h];
      }
    }

    method StreamRequested(source: SourceId, outcome: Outcome, early: seq<BusTask>)
      requires Valid()
      modifies io`queue, handlers.Values
      ensures Valid() && Abs() == Step(old(Abs()), Stream(source, outcome, early))
      ensures handlers == old(handlers) && fresh(Streamers() - old(Streamers()))
    {
      if source in handlers {
        ghost var before := Abs();
        handlers[source].Stream(outcome, early);
        OneHandler(before.handlers, Abs().handlers, source, handlers[source].View());
      }
    }

    method StopStream(source: SourceId)
      requires Valid()
      modifies io`queue, Streamers()
      ensures Valid() && Abs() == Step(old(Abs()), Stop(source))
      ensures Streamers() == old(Streamers())
    {
      if source in handlers {
        ghost var before := Abs();
        handlers[source].StopStream();
        OneHandler(before.handlers, Abs().handlers, source, handlers[source].View());
      }
    }

    method OnBusMessage(source: SourceId, message: Task)
      requires Valid()
      modifies io`queue, Streamers()
      ensures Valid() && Abs() == Step(old(Abs()), Bus(source, message))
      ensures Streamers() == old(Streamers())
    {
      if source in handlers {
        ghost var before := Abs();
        handlers[source].OnBusMessage(message);
        OneHandler(before.handlers, Abs().handlers, source, handlers[source].View());
      }
    }

    /** removeSource. Its assertion on the streaming handler, that no one refers to it any more, is a
        precondition here and holds in every reachable state by Teardown.TeardownSafety. */
    method RemoveSource(source: SourceId)
      requires Valid()
      requires source in handlers ==> handlers[source].streamer == null
      modifies this`handlers, this`removed, this`finishes, io`queue
      ensures Valid() && Abs() == Teardown.RemoveSource(old(Abs()), source)
      ensures handlers.Values <= old(handlers.Values) && Streamers() <= old(Streamers())
    {
      if source in handlers {
        ghost var before := Abs();
        handlers := handlers - {source};
        removed := removed + [source];
        assert Abs().handlers == before.handlers - {source};
      }
      if handlers == map[] {
        Finish();
      }
    }

    /** stopHandleSources. The splitter of each source posts its stage at once. `order` records the
        order in which the table was walked. */
    method StopHandleSources() returns (ghost order: seq<SourceId>)
      requires Valid()
      modifies io`queue, this`stopping, this`stopped, this`removed, this`stops, this`finishes
      ensures Valid() && Enumerates(order, handlers.Keys)
      ensures Abs() == Step(old(Abs()), StopSources(order))
    {
      hide Valid, Enumerates;
      order := [];
      BeginStop();
      if handlers != map[] {
        order := ShutdownSplitters();
      } else {
        assert handlers.Keys == {};
        NoSources(order);
        Finish();
      }
    }

    ghost method BeginStop()
      requires Valid()
      modifies this`stopping, this`stopped, this`removed, this`stops
      ensures Valid() && Abs().handlers.Keys == handlers.Keys
      ensures var before := old(Abs());
              Abs() == before.(stopping := true, stopped := before.handlers.Keys, removed := [],
                               stops := before.stops + 1)
    {
      assert Abs().handlers.Keys == handlers.Keys;
      stopping, stopped, removed, stops := true, handlers.Keys, [], stops + 1;
      assert Abs().handlers == old(Abs().handlers);
    }

    /** Posts the callback of stopHandleSources. */
    method Finish()
      requires Valid()
      modifies io`queue, this`finishes
      ensures Valid() && Abs() == PostFinished(old(Abs()))
    {
      io.Post(Finished);
      finishes := finishes + 1;
      assert Abs().handlers == old(Abs().handlers);
    }

    method ShutdownSplitters() returns (ghost order: seq<SourceId>)
      requires Valid()
      modifies io`queue
      ensures Valid() && Enumerates(order, handlers.Keys)
      ensures io.queue == old(io.queue) + FirstStages(order)
      ensures Abs() == old(Abs()).(queue := io.queue)
    {
      order := [];
      var left := handlers.Keys;
      while left != {}
        invariant left <= handlers.Keys
        invariant forall i, j :: 0 <= i < j < |order| ==> order[i] != order[j]
        invariant forall k :: k in order <==> k in handlers.Keys - left
        invariant io.queue == old(io.queue) + FirstStages(order)
        decreases left
      {
        var k :| k in left;
        assert k !in order;
        left := left - {k};
        io.Post(Work(k, SplitterDone));
        FirstStagesSnoc(order, k);
        order := order + [k];
      }
      assert Abs().handlers == old(Abs().handlers);
    }

    lemma {:induction false} FirstStagesSnoc(order: seq<SourceId>, k: SourceId)
      ensures FirstStages(order + [k]) == FirstStages(order) + [Work(k, SplitterDone)]
    {
      if order != [] {
        FirstStagesSnoc(order[1..], k);
        assert (order + [k])[1..] == order[1..] + [k];
      }
    }

    method TakeOne() returns (c: Cont)
      requires Valid() && io.queue != []
      modifies io`queue
      ensures Valid() && c == old(io.queue[0])
      ensures Abs() == old(Abs()).(queue := old(io.queue)[1..])
    {
      c := io.queue[0];
      io.queue := io.queue[1..];
      assert Abs().handlers == old(Abs().handlers);
    }

    /** Takes the oldest continuation off the queue and runs it. */
    method RunOne()
      requires Valid() && io.queue != [] && Inv(Abs())
      modifies this, io`queue, handlers.Values, Streamers()
      ensures Valid() && Abs() == RunHead(old(Abs())) && Inv(Abs())
      ensures handlers.Values <= old(handlers.Values) && Streamers() <= old(Streamers())
    {
      hide Inv, RunTask, Apply, Teardown.RemoveSource, HoldsStreamer;
      HeadIsSafe(Abs());
      InvRun(Abs());
      var c := TakeOne();
      hide Valid;
      match c {
        case Finished => stopping := false;
        case Work(source, task) =>
          if task == StreamerDone {
            RemoveSource(source);
          } else if source in handlers {
            RunWork(source, task);
          }
      }
    }

    /** Runs a continuation of a registered source; the lambdas of the shutdown chain are inlined. */
    method RunWork(source: SourceId, task: Task)
      requires Valid() && source in handlers && task != StreamerDone
      requires HoldsStreamer(task) ==> handlers[source].streamer != null && handlers[source].streamer.refs > 0
      modifies io`queue, handlers[source], handlers[source].streamer
      ensures Valid()
      ensures Abs() == Apply(old(Abs()), source, RunTask(old(handlers[source].View()), task))
      ensures Streamers() <= old(Streamers())
    {
      var h := handlers[source];
      ghost var before, view := Abs(), h.View();
      RunOn(h, task);
      hide RunTask, Tag;
      OneHandler(before.handlers, Abs().handlers, source, h.View());
    }

    /** The branches of RunWork, on the handler alone. */
    method RunOn(h: StreamingHandler, task: Task)
      requires h.Valid() && h.io == io && task != StreamerDone
      requires HoldsStreamer(task) ==> h.streamer != null && h.streamer.refs > 0
      modifies io`queue, h, h.streamer
      ensures h.Valid() && h.View() == RunTask(old(h.View()), task).handler
      ensures io.queue == old(io.queue) + Tag(h.source, RunTask(old(h.View()), task).posts)
      ensures h.streamer == old(h.streamer) || h.streamer == null
    {
      if task == SplitterDone {
        io.Post(Work(h.source, FolderDone));
        assert Tag(h.source, [FolderDone]) == [Work(h.source, FolderDone)];
      } else if task == FolderDone {
        h.Shutdown();
      } else {
        h.RunContinuation(task);
      }
    }
  }

  /** The effect of one handler on the table: the other handlers share nothing with it. */
  lemma OneHandler(before: map<SourceId, Handler>, after: map<SourceId, Handler>, source: SourceId, h: Handler)
    requires source in before && after.Keys == before.Keys && after[source] == h
    requires forall k :: k in before && k != source ==> after[k] == before[k]
    ensures after == before[source := h]
  {}

  lemma NoSources(order: seq<SourceId>)
    requires order == []
    ensures Enumerates(order, {})
  {}
}
