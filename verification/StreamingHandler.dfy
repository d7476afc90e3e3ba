/**
 DeviceBox/StreamingHandler.cpp: the classes Streamer and StreamingHandler, and the
 io_service they post to. Each method is tied to the step of the Teardown model that it
 takes; the model's theorems then speak about these objects.
 */
module StreamingHandlers {

  import opened Options
  import opened Teardown

  /** The queue of posted continuations. */
  class IoService {
    var queue: seq<Cont>

    constructor ()
      ensures queue == []
    {
      queue := [];
    }

    method Post(c: Cont)
      modifies this`queue
      ensures queue == old(queue) + [c]
    {
      queue := queue + [c];
    }
  }

  class StreamerObject {
    const io: IoService
    const source: SourceId
    var pipeline: bool
    var refs: nat  // the value of _thisRefCounter

    ghost function View(): Streamer
      reads this
    {
      Streamer(pipeline, refs)
    }

    constructor (io: IoService, source: SourceId, initialised: bool)
      ensures this.io == io && this.source == source
      ensures pipeline == initialised && refs == 0
    {
      this.io, this.source := io, source;
      pipeline, refs := initialised, 0;
    }

    predicate IsValid()
      reads this
    {
      pipeline
    }

    method PostTask(t: Task)
      modifies io`queue
      ensures io.queue == old(io.queue) + Tag(source, [t])
    {
      io.Post(Work(source, t));
    }

    /** Sets the pipeline to playing; bus messages sent meanwhile post their continuations first. */
    method Stream(outcome: Outcome, early: seq<BusTask>)
      requires outcome != Invalid && pipeline
      modifies this`refs, io`queue
      ensures View() == old(View()).(refs := old(refs) + |early|)
      ensures io.queue == old(io.queue) + Tag(source, early + Reply(outcome))
    {
      for i := 0 to |early|
        invariant pipeline && refs == old(refs) + i
        invariant io.queue == old(io.queue) + Tag(source, early[..i])
      {
        ThreadedBusMessage(early[i]);
        TagConcat(source, early[..i], [early[i]]);
        assert early[..i + 1] == early[..i] + [early[i]];
      }
      assert early[..|early|] == early;
      TagConcat(source, early, Reply(outcome));
      match outcome {
        case StateFailure => PostTask(Failed);
        case Success => PostTask(Streaming);
        case _ =>
      }
    }

    method StopStream()
      modifies this`pipeline, io`queue
      ensures View() == StopStreamer(old(View())).streamer
      ensures io.queue == old(io.queue) + Tag(source, StopStreamer(old(View())).posts)
    {
      if pipeline {
        pipeline := false;
      }
      if refs == 0 {
        PostTask(Destroy);
      }
    }

    method AsyncPlaying()
      modifies io`queue
      ensures io.queue == old(io.queue) + Tag(source, [Streaming])
    {
      PostTask(Streaming);
    }

    method AsyncError()
      modifies this`pipeline, io`queue
      ensures View() == StopStreamer(old(View())).streamer
      ensures io.queue == old(io.queue) + Tag(source, [Failed]) + Tag(source, StopStreamer(old(View())).posts)
    {
      PostTask(Failed);
      StopStream();
    }

    method AsyncEos()
      modifies this`pipeline, io`queue
      ensures View() == StopStreamer(old(View())).streamer
      ensures io.queue == old(io.queue) + Tag(source, [Failed]) + Tag(source, StopStreamer(old(View())).posts)
    {
      PostTask(Failed);
      StopStream();
    }

    method NoMoreRefs()
      modifies io`queue
      ensures io.queue == old(io.queue) + Tag(source, if pipeline then [] else [Destroy])
    {
      if !pipeline {
        PostTask(Destroy);
      }
    }

    /** The destructor of a handle to this Streamer, other than its own. */
    method ReleaseRef()
      requires refs > 0
      modifies this`refs, io`queue
      ensures View() == DropRef(old(View())).streamer
      ensures io.queue == old(io.queue) + Tag(source, DropRef(old(View())).posts)
    {
      if RefCounter.LastRef(refs) {
        NoMoreRefs();
      }
      refs := refs - 1;
    }

    /** threadedBusMessage: copies the handle into a posted continuation. */
    method ThreadedBusMessage(message: Task)
      requires HoldsStreamer(message) && pipeline
      modifies this`refs, io`queue
      ensures View() == old(View()).(refs := old(refs) + 1)
      ensures io.queue == old(io.queue) + Tag(source, [message])
    {
      refs := refs + 1;
      PostTask(message);
    }

    /** A continuation bound to this Streamer: the call and the release of its handle. */
    method RunContinuation(t: Task)
      requires HoldsStreamer(t) && refs > 0
      modifies this`pipeline, this`refs, io`queue
      ensures View() == RunBus(old(View()), t).streamer
      ensures io.queue == old(io.queue) + Tag(source, RunBus(old(View()), t).posts)
    {
      ghost var before := View();
      match t {
        case Playing => AsyncPlaying();
        case Error => AsyncError();
        case Eos => AsyncEos();
        case _ =>
      }
      ghost var stop := StopStreamer(before);
      if t.Playing? {
        TagConcat(source, [Streaming], DropRef(before).posts);
      } else {
        TagConcat(source, [Failed], stop.posts);
        TagConcat(source, [Failed] + stop.posts, DropRef(stop.streamer).posts);
      }
      ReleaseRef();
    }
  }

  lemma {:induction false} TagConcat(source: SourceId, a: seq<Task>, b: seq<Task>)
    ensures Tag(source, a + b) == Tag(source, a) + Tag(source, b)
  {
    if a == [] {
      assert a + b == b;
    } else {
      TagConcat(source, a[1..], b);
      assert (a + b)[1..] == a[1..] + b;
    }
  }

  class StreamingHandler {
    const io: IoService
    const source: SourceId
    var streamer: StreamerObject?
    var shuttedDown: bool

    ghost predicate Valid()
      reads this
    {
      streamer != null ==> streamer.io == io && streamer.source == source
    }

    ghost function View(): Handler
      reads this, streamer
    {
      Handler(if streamer == null then None else Some(streamer.View()), shuttedDown)
    }

    /** The state and the queue after `e`. */
    twostate predicate Did(e: Effect)
      reads this, streamer, io
    {
      View() == e.handler && io.queue == old(io.queue) + Tag(source, e.posts)
    }

    constructor (io: IoService, source: SourceId)
      ensures this.io == io && this.source == source
      ensures Valid() && View() == Handler(None, false)
    {
      this.io, this.source := io, source;
      streamer, shuttedDown := null, false;
    }

    method Stream(outcome: Outcome, early: seq<BusTask>)
      requires Valid()
      modifies this`streamer, io`queue
      ensures Valid() && Did(StartStreaming(old(View()), outcome, early))
      ensures streamer == old(streamer) || streamer == null || fresh(streamer)
    {
      if streamer != null {
        assert io.queue == io.queue + Tag(source, []);
        return;
      }
      streamer := new StreamerObject(io, source, outcome != Invalid);
      if !streamer.IsValid() {
        streamer := null;
        io.Post(Work(source, CallFailed));
        return;
      }
      streamer.Stream(outcome, early);
    }

    method StopStream()
      requires Valid()
      modifies streamer, io`queue
      ensures Valid() && Did(StopHandler(old(View())))
    {
      if streamer != null {
        streamer.StopStream();
      } else {
        assert io.queue == io.queue + Tag(source, []);
      }
    }

    method DestroyStreaming()
      requires Valid()
      modifies this`streamer, this`shuttedDown, io`queue
      ensures Valid() && streamer == null && Did(RunTask(old(View()), Destroy))
    {
      streamer := null;
      if shuttedDown {
        io.Post(Work(source, StreamerDone));
        shuttedDown := false;
      } else {
        assert io.queue == io.queue + Tag(source, []);
      }
    }

    method Shutdown()
      requires Valid()
      modifies this`shuttedDown, streamer, io`queue
      ensures Valid() && Did(ShutdownHandler(old(View())))
    {
      if streamer != null {
        shuttedDown := true;
        streamer.StopStream();
      } else {
        io.Post(Work(source, StreamerDone));
      }
    }

    method OnBusMessage(message: Task)
      requires Valid()
      modifies streamer, io`queue
      ensures Valid() && Did(BusMessage(old(View()), message))
    {
      if HoldsStreamer(message) && streamer != null && streamer.pipeline {
        streamer.ThreadedBusMessage(message);
      } else {
        assert io.queue == io.queue + Tag(source, []);
      }
    }

    /** Runs a continuation bound to this handler, to its Streamer or to the client. */
    method RunContinuation(t: Task)
      requires Valid() && !IsStage(t)
      requires HoldsStreamer(t) ==> streamer != null && streamer.refs > 0
      modifies this`streamer, this`shuttedDown, streamer, io`queue
      ensures Valid() && Did(RunTask(old(View()), t))
      ensures streamer == old(streamer) || streamer == null
    {
      match t {
        case Playing | Error | Eos => streamer.RunContinuation(t);
        case Destroy => DestroyStreaming();
        case Streaming => io.Post(Work(source, CallStreaming));
        case Failed => io.Post(Work(source, CallFailed));
        case CallStreaming | CallFailed => assert io.queue == io.queue + Tag(source, []);
        case SplitterDone | FolderDone | StreamerDone => assert false;
      }
    }
  }
}
