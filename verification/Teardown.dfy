/**
 The asynchronous life and shutdown of streamers, as a transition system over one FIFO queue
 of continuations (the io_service) shared by all sources: DeviceBox/StreamingHandler.cpp and
 the shutdown chain of DeviceBox/Controller.cpp.

 A queued continuation owns what it was bound to: Playing, Error and Eos own a handle to the
 Streamer, and Destroy, Streaming and Failed own a handle to the StreamingHandler. A running
 continuation keeps its handle until it returns.
 */
module Teardown {

  import opened Options
  import RefCounter

  type SourceId = string

  datatype Task =
    | Playing | Error | Eos                       // Streamer::asyncPlaying, asyncError, asyncEos
    | Destroy                                     // StreamingHandler::destroyStreaming
    | Streaming | Failed                          // StreamingHandler::streaming, streamFailed
    | CallStreaming | CallFailed                  // the client's callbacks
    | SplitterDone | FolderDone | StreamerDone    // the stages of Controller::stopHandleSources

  /** The tasks that bus messages post. */
  type BusTask = t: Task | t.Playing? || t.Error? || t.Eos? witness Playing

  datatype Cont = Work(source: SourceId, task: Task) | Finished

  predicate HoldsStreamer(t: Task) {
    t.Playing? || t.Error? || t.Eos?
  }

  predicate HoldsHandler(t: Task) {
    t.Destroy? || t.Streaming? || t.Failed?
  }

  /** A callback of the client, which holds nothing of the handler. */
  predicate CallsClient(t: Task) {
    t.CallStreaming? || t.CallFailed?
  }

  /** A stage of the shutdown chain in the queue. */
  predicate IsStage(t: Task) {
    t.SplitterDone? || t.FolderDone? || t.StreamerDone?
  }

  // ---------------------------------------------------------------- one source

  /** `refs` is the value of the Streamer's reference counter. */
  datatype Streamer = Streamer(pipeline: bool, refs: nat)

  /** `shuttedDown` says that a callback is waiting for the streamer to go. */
  datatype Handler = Handler(streamer: Option<Streamer>, shuttedDown: bool)

  datatype StreamerEffect = StreamerEffect(streamer: Streamer, posts: seq<Task>)

  datatype Effect = Effect(handler: Handler, posts: seq<Task>)

  /** Streamer::stopStream. */
  function StopStreamer(st: Streamer): StreamerEffect {
    StreamerEffect(st.(pipeline := false), if st.refs > 0 then [] else [Destroy])
  }

  /** A Streamer handle goes away: noMoreRefs runs when the counter drops from one to zero. */
  function DropRef(st: Streamer): StreamerEffect
    requires st.refs > 0
  {
    StreamerEffect(st.(refs := st.refs - 1), if RefCounter.LastRef(st.refs) && !st.pipeline then [Destroy] else [])
  }

  /** asyncPlaying, asyncError or asyncEos, and then the end of the continuation. */
  function RunBus(st: Streamer, t: Task): StreamerEffect
    requires HoldsStreamer(t) && st.refs > 0
  {
    if t.Playing? then
      var d := DropRef(st);
      StreamerEffect(d.streamer, [Streaming] + d.posts)
    else
      var stop := StopStreamer(st);
      var d := DropRef(stop.streamer);
      StreamerEffect(d.streamer, [Failed] + stop.posts + d.posts)
  }

  /** StreamingHandler::destroyStreaming. */
  function DestroyStreaming(h: Handler): Effect {
    Effect(Handler(None, false), if h.shuttedDown then [StreamerDone] else [])
  }

  /** StreamingHandler::stopStream. */
  function StopHandler(h: Handler): Effect {
    if h.streamer.None? then Effect(h, [])
    else
      var e := StopStreamer(h.streamer.value);
      Effect(h.(streamer := Some(e.streamer)), e.posts)
  }

  /** StreamingHandler::shutdown. */
  function ShutdownHandler(h: Handler): Effect {
    if h.streamer.None? then Effect(h, [StreamerDone]) else StopHandler(h.(shuttedDown := true))
  }

  /** How the creation of a pipeline and its first state change may go. */
  datatype Outcome = Invalid | StateFailure | Async | Success

  /** What Streamer::stream posts when its state change returns. */
  function Reply(outcome: Outcome): seq<Task> {
    match outcome
    case Invalid => [CallFailed]
    case StateFailure => [Failed]
    case Async => []
    case Success => [Streaming]
  }

  /** StreamingHandler::stream. `early` are the bus messages sent while the state change runs; what
      they post comes first. */
  function StartStreaming(h: Handler, outcome: Outcome, early: seq<BusTask>): Effect {
    if h.streamer.Some? then Effect(h, [])
    else if outcome == Invalid then Effect(h, Reply(Invalid))
    else Effect(h.(streamer := Some(Streamer(true, |early|))), early + Reply(outcome))
  }

  /** A bus message, which only a pipeline can send. */
  function BusMessage(h: Handler, t: Task): Effect {
    if HoldsStreamer(t) && h.streamer.Some? && h.streamer.value.pipeline then
      var st := h.streamer.value;
      Effect(h.(streamer := Some(st.(refs := st.refs + 1))), [t])
    else Effect(h, [])
  }

  /** Running any task but the last stage. Running a task that holds a Streamer which is gone would
      be undefined; NothingDangles shows that it does not happen. */
  function RunTask(h: Handler, t: Task): Effect {
    match t
    case Playing | Error | Eos =>
      if h.streamer.None? || h.streamer.value.refs == 0 then Effect(h, [])
      else
        var e := RunBus(h.streamer.value, t);
        Effect(h.(streamer := Some(e.streamer)), e.posts)
    case Destroy => DestroyStreaming(h)
    case Streaming => Effect(h, [CallStreaming])
    case Failed => Effect(h, [CallFailed])
    case SplitterDone => Effect(h, [FolderDone])
    case FolderDone => ShutdownHandler(h)
    case CallStreaming | CallFailed => Effect(h, [])
    case StreamerDone => Effect(h, [])
  }

  // ---------------------------------------------------------------- the whole system

  /** `stopping` lasts from stopHandleSources until its callback runs. The last four fields are
      history: the sources there were when it was called, those removed since, how often it was
      called and how often its callback was posted. */
  datatype State = State(
    queue: seq<Cont>,
    handlers: map<SourceId, Handler>,
    stopping: bool,
    stopped: set<SourceId>,
    removed: seq<SourceId>,
    stops: nat,
    finishes: nat)

  const INITIAL := State([], map[], false, {}, [], 0, 0)

  datatype Event =
    | Start(source: SourceId)
    | Stream(source: SourceId, outcome: Outcome, early: seq<BusTask>)
    | Stop(source: SourceId)
    | Bus(source: SourceId, message: Task)
    | StopSources(order: seq<SourceId>)
    | Run

  function Tag(source: SourceId, tasks: seq<Task>): seq<Cont> {
    if tasks == [] then [] else [Work(source, tasks[0])] + Tag(source, tasks[1..])
  }

  function Apply(s: State, source: SourceId, e: Effect): State {
    s.(handlers := s.handlers[source := e.handler], queue := s.queue + Tag(source, e.posts))
  }

  function PostFinished(s: State): State {
    s.(queue := s.queue + [Finished], finishes := s.finishes + 1)
  }

  /** Controller::removeSource. */
  function RemoveSource(s: State, source: SourceId): State {
    var t := if source in s.handlers then s.(handlers := s.handlers - {source}, removed := s.removed + [source]) else s;
    if t.handlers == map[] then PostFinished(t) else t
  }

  function FirstStages(order: seq<SourceId>): seq<Cont> {
    if order == [] then [] else [Work(order[0], SplitterDone)] + FirstStages(order[1..])
  }

  /** Controller::stopHandleSources; `order` is the order of the handler map. */
  function StopHandleSources(s: State, order: seq<SourceId>): State {
    var t := s.(stopping := true, stopped := s.handlers.Keys, removed := [], stops := s.stops + 1);
    if s.handlers != map[] then t.(queue := t.queue + FirstStages(order)) else PostFinished(t)
  }

  /** io_service takes the oldest continuation and runs it. */
  function RunHead(s: State): State
    requires s.queue != []
  {
    var t := s.(queue := s.queue[1..]);
    match s.queue[0]
    case Finished => t.(stopping := false)
    case Work(source, StreamerDone) => RemoveSource(t, source)
    case Work(source, task) => if source in s.handlers then Apply(t, source, RunTask(s.handlers[source], task)) else t
  }

  function Step(s: State, e: Event): State {
    match e
    case Start(source) => if source in s.handlers then s else s.(handlers := s.handlers[source := Handler(None, false)])
    case Stream(source, outcome, early) =>
      if source in s.handlers then Apply(s, source, StartStreaming(s.handlers[source], outcome, early)) else s
    case Stop(source) => if source in s.handlers then Apply(s, source, StopHandler(s.handlers[source])) else s
    case Bus(source, message) =>
      if source in s.handlers then Apply(s, source, BusMessage(s.handlers[source], message)) else s
    case StopSources(order) => StopHandleSources(s, order)
    case Run => if s.queue == [] then s else RunHead(s)
  }

  predicate Enumerates(order: seq<SourceId>, keys: set<SourceId>) {
    && (forall i, j :: 0 <= i < j < |order| ==> order[i] != order[j])
    && (forall k :: k in order ==> k in keys)
    && (forall k :: k in keys ==> k in order)
  }

  /** No new Streamer may be made while a Destroy of the previous one is still queued. */
  predicate NoStaleDestroy(s: State, source: SourceId) {
    source in s.handlers && s.handlers[source].streamer.None? ==> Work(source, Destroy) !in s.queue
  }

  /** The assumptions on the surroundings: calls of stopHandleSources do not overlap, sources are
      added only outside of one, and stream() is neither called on a handler whose shutdown has
      been answered nor ahead of a stale Destroy. */
  predicate Allowed(s: State, e: Event) {
    match e
    case Start(source) => !s.stopping && source !in s.handlers
    case Stream(source, _, _) =>
      && NoStaleDestroy(s, source)
      && (source in s.handlers && s.handlers[source].streamer.None? ==> Work(source, StreamerDone) !in s.queue)
    case StopSources(order) => !s.stopping && Enumerates(order, s.handlers.Keys)
    case _ => true
  }

  ghost predicate AllowedRun(s: State, events: seq<Event>)
    decreases |events|
  {
    events == [] || (Allowed(s, events[0]) && AllowedRun(Step(s, events[0]), events[1..]))
  }

  function Execute(s: State, events: seq<Event>): State
    decreases |events|
  {
    if events == [] then s else Execute(Step(s, events[0]), events[1..])
  }

  ghost predicate Reachable(s: State) {
    exists events :: AllowedRun(INITIAL, events) && Execute(INITIAL, events) == s
  }

  // ---------------------------------------------------------------- the invariant of one source

  /** The tasks of one source, in queue order. */
  function Proj(queue: seq<Cont>, source: SourceId): seq<Task> {
    if queue == [] then []
    else (if queue[0].Work? && queue[0].source == source then [queue[0].task] else []) + Proj(queue[1..], source)
  }

  function Refs(q: seq<Task>): nat {
    if q == [] then 0 else (if HoldsStreamer(q[0]) then 1 else 0) + Refs(q[1..])
  }

  function Stages(q: seq<Task>): nat {
    if q == [] then 0 else (if IsStage(q[0]) then 1 else 0) + Stages(q[1..])
  }

  /** The counter counts the queued Streamer handles; a Destroy is queued exactly when the Streamer
      may go; and while a callback waits, the pipeline is gone already. */
  ghost predicate StreamerInv(h: Handler, q: seq<Task>) {
    match h.streamer
    case None => Refs(q) == 0 && !h.shuttedDown
    case Some(st) =>
      && st.refs == Refs(q)
      && (Destroy in q <==> !st.pipeline && st.refs == 0)
      && (h.shuttedDown ==> !st.pipeline)
  }

  /** Once the last stage is queued, the Streamer is gone and no handle follows it. */
  ghost predicate LastStageInv(h: Handler, q: seq<Task>) {
    StreamerDone in q ==>
      h.streamer.None? && forall i, j :: 0 <= i < j < |q| && q[i].StreamerDone? ==> !HoldsHandler(q[j])
  }

  ghost predicate LocalInv(h: Option<Handler>, q: seq<Task>, stopping: bool) {
    match h
    case None => forall t :: t in q ==> CallsClient(t)
    case Some(h) =>
      && StreamerInv(h, q)
      && LastStageInv(h, q)
      && Stages(q) + (if h.shuttedDown then 1 else 0) == (if stopping then 1 else 0)
  }

  lemma {:induction false} CountsConcat(a: seq<Task>, b: seq<Task>)
    ensures Refs(a + b) == Refs(a) + Refs(b)
    ensures Stages(a + b) == Stages(a) + Stages(b)
  {
    if a == [] {
      assert a + b == b;
    } else {
      CountsConcat(a[1..], b);
      assert (a + b)[1..] == a[1..] + b;
    }
  }

  lemma {:induction false} CountsZero(q: seq<Task>)
    ensures Refs(q) == 0 <==> forall t :: t in q ==> !HoldsStreamer(t)
    ensures Stages(q) == 0 <==> forall t :: t in q ==> !IsStage(t)
  {
    if q != [] {
      CountsZero(q[1..]);
      assert q == [q[0]] + q[1..];
    }
  }

  lemma CountsTail(t: Task, rest: seq<Task>)
    ensures Refs([t] + rest) == (if HoldsStreamer(t) then 1 else 0) + Refs(rest)
    ensures Stages([t] + rest) == (if IsStage(t) then 1 else 0) + Stages(rest)
  {
    assert ([t] + rest)[1..] == rest;
  }

  /** Posting tasks that are no stage keeps the order behind the last stage, as long as no handle is
      posted once the last stage is queued. */
  lemma LastStageAfterPost(h: Handler, q: seq<Task>, h': Handler, posts: seq<Task>)
    requires LastStageInv(h, q)
    requires StreamerDone !in posts
    requires StreamerDone in q ==> h'.streamer.None? && forall t :: t in posts ==> !HoldsHandler(t)
    ensures LastStageInv(h', q + posts)
  {
    if StreamerDone in q + posts {
      assert StreamerDone in q;
      var all := q + posts;
      forall i, j | 0 <= i < j < |all| && all[i].StreamerDone?
        ensures !HoldsHandler(all[j])
      {
        assert forall k :: 0 <= k < |posts| ==> posts[k] != StreamerDone;
        if j >= |q| { assert posts[j - |q|] in posts; }
      }
    }
  }

  lemma StageFree(q: seq<Task>, t: Task)
    requires Stages(q) == 0 && IsStage(t)
    ensures t !in q
  {
    CountsZero(q);
  }

  lemma LastStageTail(h: Handler, t: Task, rest: seq<Task>)
    requires LastStageInv(h, [t] + rest)
    ensures LastStageInv(h, rest)
  {
    var q := [t] + rest;
    assert forall i :: 0 <= i < |rest| ==> rest[i] == q[i + 1];
  }

  lemma LocalStop(h: Handler, q: seq<Task>, stopping: bool)
    requires LocalInv(Some(h), q, stopping)
    ensures LocalInv(Some(StopHandler(h).handler), q + StopHandler(h).posts, stopping)
  {
    var e := StopHandler(h);
    CountsConcat(q, e.posts);
    CountsPosts(e.posts);
    LastStageAfterPost(h, q, e.handler, e.posts);
  }

  lemma CountsPosts(posts: seq<Task>)
    requires |posts| <= 1
    ensures Refs(posts) == if posts != [] && HoldsStreamer(posts[0]) then 1 else 0
    ensures Stages(posts) == if posts != [] && IsStage(posts[0]) then 1 else 0
  {
    if posts != [] {
      assert posts == [posts[0]] + [];
      CountsTail(posts[0], []);
    }
  }

  lemma LocalStart(h: Handler, q: seq<Task>, stopping: bool, outcome: Outcome, early: seq<BusTask>)
    requires LocalInv(Some(h), q, stopping)
    requires h.streamer.None? ==> Destroy !in q && StreamerDone !in q
    ensures var e := StartStreaming(h, outcome, early);
            LocalInv(Some(e.handler), q + e.posts, stopping)
  {
    var e := StartStreaming(h, outcome, early);
    CountsConcat(q, e.posts);
    CountsConcat(early, Reply(outcome));
    CountsBus(early);
    CountsPosts(Reply(outcome));
    CountsPosts([]);
    LastStageAfterPost(h, q, e.handler, e.posts);
  }

  lemma {:induction false} CountsBus(early: seq<BusTask>)
    ensures Refs(early) == |early| && Stages(early) == 0
  {
    if early != [] {
      CountsBus(early[1..]);
    }
  }

  lemma LocalBus(h: Handler, q: seq<Task>, stopping: bool, message: Task)
    requires LocalInv(Some(h), q, stopping)
    ensures LocalInv(Some(BusMessage(h, message).handler), q + BusMessage(h, message).posts, stopping)
  {
    var e := BusMessage(h, message);
    CountsConcat(q, e.posts);
    CountsPosts(e.posts);
    LastStageAfterPost(h, q, e.handler, e.posts);
  }

  /** Running a task of one source keeps its invariant. */
  lemma LocalRun(h: Handler, t: Task, rest: seq<Task>, stopping: bool)
    requires LocalInv(Some(h), [t] + rest, stopping) && t != StreamerDone
    ensures LocalInv(Some(RunTask(h, t).handler), rest + RunTask(h, t).posts, stopping)
  {
    if HoldsStreamer(t) {
      LocalRunBus(h, t, rest, stopping);
    } else {
      var e := RunTask(h, t);
      CountsTail(t, rest);
      CountsConcat(rest, e.posts);
      CountsPosts(e.posts);
      LastStageTail(h, t, rest);
      if StreamerDone in e.posts {
        StageFree(rest, StreamerDone);
      } else {
        LastStageAfterPost(h, rest, e.handler, e.posts);
      }
    }
  }

  lemma LocalRunBus(h: Handler, t: Task, rest: seq<Task>, stopping: bool)
    requires LocalInv(Some(h), [t] + rest, stopping) && HoldsStreamer(t)
    ensures LocalInv(Some(RunTask(h, t).handler), rest + RunTask(h, t).posts, stopping)
  {
    hide LastStageInv, RunTask, Refs, Stages;
    CountsTail(t, rest);
    BusEffect(h, t);
    var first := if t.Playing? then Streaming else Failed;
    var last := if LastBus(h.streamer.value, t) then [Destroy] else [];
    var posts := [first] + last;
    CountsConcat(rest, posts);
    CountsTail(first, last);
    CountsPosts(last);
    NoLastStage(h, [t] + rest);
    assert forall x :: x in rest ==> x in [t] + rest;
    assert StreamerDone !in rest + posts;
    LastStageFree(RunTask(h, t).handler, rest + posts);
  }

  /** A bus continuation holds the last handle to a Streamer whose pipeline is gone, or goes now. */
  predicate LastBus(st: Streamer, t: Task) {
    st.refs == 1 && (t.Playing? ==> !st.pipeline)
  }

  lemma BusEffect(h: Handler, t: Task)
    requires HoldsStreamer(t) && h.streamer.Some? && h.streamer.value.refs > 0
    ensures var st := h.streamer.value;
            RunTask(h, t) == Effect(
              h.(streamer := Some(Streamer(st.pipeline && t.Playing?, st.refs - 1))),
              [if t.Playing? then Streaming else Failed] + (if LastBus(st, t) then [Destroy] else []))
  {}

  lemma NoLastStage(h: Handler, q: seq<Task>)
    requires LastStageInv(h, q) && h.streamer.Some?
    ensures StreamerDone !in q
  {}

  lemma LastStageFree(h: Handler, q: seq<Task>)
    requires StreamerDone !in q
    ensures LastStageInv(h, q)
  {}

  /** When the last stage runs, nothing of the source but client callbacks is left. */
  lemma LocalLast(h: Handler, rest: seq<Task>, stopping: bool)
    requires LocalInv(Some(h), [StreamerDone] + rest, stopping)
    ensures stopping && h.streamer.None? && LocalInv(None, rest, stopping)
  {
    CountsTail(StreamerDone, rest);
    CountsZero(rest);
    var q := [StreamerDone] + rest;
    assert q[0] in q;
    forall t | t in rest
      ensures CallsClient(t)
    {
      var j :| 0 <= j < |rest| && rest[j] == t;
      assert q[j + 1] == t;
    }
  }

  // ---------------------------------------------------------------- the invariant of the system

  function Lookup(handlers: map<SourceId, Handler>, source: SourceId): Option<Handler> {
    if source in handlers then Some(handlers[source]) else None
  }

  function Finishes(queue: seq<Cont>): nat {
    if queue == [] then 0 else (if queue[0].Finished? then 1 else 0) + Finishes(queue[1..])
  }

  /** The callback of stopHandleSources is posted once per call, when the last source has gone; and
      each source there was is either still there or has been removed once. */
  ghost predicate BarrierInv(s: State) {
    && Finishes(s.queue) == (if s.stopping && s.handlers == map[] then 1 else 0)
    && s.finishes + (if s.stopping && s.handlers != map[] then 1 else 0) == s.stops
    && (s.stopping ==>
          && (forall i, j :: 0 <= i < j < |s.removed| ==> s.removed[i] != s.removed[j])
          && (forall k :: k in s.stopped <==> k in s.removed || k in s.handlers)
          && (forall k :: k in s.removed ==> k !in s.handlers))
  }

  ghost predicate SourcesInv(queue: seq<Cont>, handlers: map<SourceId, Handler>, stopping: bool) {
    forall source :: LocalInv(Lookup(handlers, source), Proj(queue, source), stopping)
  }

  ghost predicate Inv(s: State) {
    SourcesInv(s.queue, s.handlers, s.stopping) && BarrierInv(s)
  }

  lemma Rejoin(p: seq<Task>, q: seq<Task>, r: seq<Task>)
    ensures p + (q + r) == p + q + r
  {}

  lemma {:induction false} ProjConcat(a: seq<Cont>, b: seq<Cont>, source: SourceId)
    ensures Proj(a + b, source) == Proj(a, source) + Proj(b, source)
  {
    if a == [] {
      assert a + b == b;
    } else {
      ProjConcat(a[1..], b, source);
      assert (a + b)[1..] == a[1..] + b;
      Rejoin(if a[0].Work? && a[0].source == source then [a[0].task] else [], Proj(a[1..], source), Proj(b, source));
    }
  }

  lemma {:induction false} FinishesConcat(a: seq<Cont>, b: seq<Cont>)
    ensures Finishes(a + b) == Finishes(a) + Finishes(b)
  {
    if a == [] {
      assert a + b == b;
    } else {
      FinishesConcat(a[1..], b);
      assert (a + b)[1..] == a[1..] + b;
    }
  }

  lemma {:induction false} ProjTag(source: SourceId, tasks: seq<Task>, other: SourceId)
    ensures Proj(Tag(source, tasks), other) == if other == source then tasks else []
    ensures Finishes(Tag(source, tasks)) == 0
  {
    if tasks != [] {
      ProjTag(source, tasks[1..], other);
      assert Tag(source, tasks)[1..] == Tag(source, tasks[1..]);
      assert tasks == [tasks[0]] + tasks[1..];
    }
  }

  lemma {:induction false} ProjFirstStages(order: seq<SourceId>, source: SourceId)
    requires forall i, j :: 0 <= i < j < |order| ==> order[i] != order[j]
    ensures Proj(FirstStages(order), source) == if source in order then [SplitterDone] else []
    ensures Finishes(FirstStages(order)) == 0
  {
    if order != [] {
      var rest := order[1..];
      ProjFirstStages(rest, source);
      ProjCons(Work(order[0], SplitterDone), FirstStages(rest), source);
      if source in rest {
        var i :| 0 <= i < |rest| && rest[i] == source;
        assert order[i + 1] == source;
      } else {
        assert source in order <==> source == order[0] by { assert order == [order[0]] + rest; }
      }
    }
  }

  lemma ProjCons(c: Cont, rest: seq<Cont>, source: SourceId)
    ensures Proj([c] + rest, source) ==
              if c.Work? && c.source == source then [c.task] + Proj(rest, source) else Proj(rest, source)
    ensures Finishes([c] + rest) == (if c.Finished? then 1 else 0) + Finishes(rest)
  {
    assert ([c] + rest)[1..] == rest;
    assert [] + Proj(rest, source) == Proj(rest, source);
  }

  lemma {:induction false} ProjMember(queue: seq<Cont>, source: SourceId, t: Task)
    ensures t in Proj(queue, source) <==> Work(source, t) in queue
  {
    if queue != [] {
      ProjMember(queue[1..], source, t);
      assert queue == [queue[0]] + queue[1..];
    }
  }

  /** An effect on one source, the other sources and the barrier being in order. */
  lemma InvApply(s: State, source: SourceId, e: Effect)
    requires source in s.handlers
    requires forall b :: b != source ==> LocalInv(Lookup(s.handlers, b), Proj(s.queue, b), s.stopping)
    requires LocalInv(Some(e.handler), Proj(s.queue, source) + e.posts, s.stopping)
    requires BarrierInv(s)
    ensures Inv(Apply(s, source, e))
  {
    hide LocalInv, Proj, Finishes, Tag;
    var t := Apply(s, source, e);
    forall b
      ensures LocalInv(Lookup(t.handlers, b), Proj(t.queue, b), t.stopping)
    {
      ProjConcat(s.queue, Tag(source, e.posts), b);
      ProjTag(source, e.posts, b);
      if b != source {
        assert Proj(s.queue, b) + [] == Proj(s.queue, b);
      }
    }
    FinishesConcat(s.queue, Tag(source, e.posts));
    ProjTag(source, e.posts, source);
    assert source in t.handlers;
  }

  lemma InvStopSources(s: State, order: seq<SourceId>)
    requires Inv(s) && !s.stopping && Enumerates(order, s.handlers.Keys)
    ensures Inv(StopHandleSources(s, order))
  {
    var t := StopHandleSources(s, order);
    var posts := if s.handlers != map[] then FirstStages(order) else [Finished];
    forall b
      ensures LocalInv(Lookup(t.handlers, b), Proj(t.queue, b), t.stopping)
    {
      ProjConcat(s.queue, posts, b);
      if s.handlers != map[] {
        ProjFirstStages(order, b);
        if b in s.handlers {
          LocalFirst(s.handlers[b], Proj(s.queue, b));
        }
      }
    }
    FinishesConcat(s.queue, posts);
    ProjFirstStages(order, "");
  }

  lemma LocalFirst(h: Handler, q: seq<Task>)
    requires LocalInv(Some(h), q, false)
    ensures LocalInv(Some(h), q + [SplitterDone], true)
  {
    CountsConcat(q, [SplitterDone]);
    CountsPosts([SplitterDone]);
    LastStageAfterPost(h, q, h, [SplitterDone]);
    StageFree(q, StreamerDone);
  }

  lemma ProjHead(s: State, b: SourceId)
    requires s.queue != []
    ensures Proj(s.queue, b) ==
              if s.queue[0].Work? && s.queue[0].source == b then [s.queue[0].task] + Proj(s.queue[1..], b)
              else Proj(s.queue[1..], b)
  {
    assert [] + Proj(s.queue[1..], b) == Proj(s.queue[1..], b);
  }

  lemma LastStageLeaves(s: State, source: SourceId)
    requires Inv(s) && s.queue != [] && s.queue[0] == Work(source, StreamerDone)
    ensures source in s.handlers && s.stopping
    ensures LocalInv(None, Proj(s.queue[1..], source), s.stopping)
  {
    var q := Proj(s.queue[1..], source);
    ProjHead(s, source);
    assert LocalInv(Lookup(s.handlers, source), [StreamerDone] + q, s.stopping);
    assert ([StreamerDone] + q)[0] in [StreamerDone] + q;
    LocalLast(s.handlers[source], q, s.stopping);
  }

  lemma InvRemove(s: State, source: SourceId)
    requires Inv(s) && s.queue != [] && s.queue[0] == Work(source, StreamerDone)
    ensures source in s.handlers && s.stopping
    ensures Inv(RunHead(s))
  {
    hide LocalInv, Proj, BarrierInv;
    LastStageLeaves(s, source);
    var rest, t := s.queue[1..], RunHead(s);
    var posts := if t.handlers == map[] then [Finished] else [];
    assert t.queue == rest + posts;
    forall b
      ensures LocalInv(Lookup(t.handlers, b), Proj(t.queue, b), t.stopping)
    {
      ProjHead(s, b);
      ProjConcat(rest, posts, b);
      NoneOfFinished(posts, b);
      assert LocalInv(Lookup(s.handlers, b), Proj(s.queue, b), s.stopping);
      assert Proj(rest, b) + [] == Proj(rest, b);
    }
    RemoveBarrier(s, source, posts);
  }

  lemma NoneOfFinished(posts: seq<Cont>, source: SourceId)
    requires posts == [] || posts == [Finished]
    ensures Proj(posts, source) == []
  {}

  lemma RemoveBarrier(s: State, source: SourceId, posts: seq<Cont>)
    requires BarrierInv(s) && s.queue != [] && s.queue[0] == Work(source, StreamerDone)
    requires source in s.handlers && s.stopping
    requires posts == if s.handlers - {source} == map[] then [Finished] else []
    ensures BarrierInv(RunHead(s))
  {
    var t := RunHead(s);
    FinishesConcat(s.queue[1..], posts);
    assert t.queue == s.queue[1..] + posts;
    assert t.removed == s.removed + [source];
  }

  lemma InvRun(s: State)
    requires Inv(s) && s.queue != []
    ensures Inv(RunHead(s))
  {
    var rest := s.queue[1..];
    var t := s.(queue := rest);
    match s.queue[0] {
      case Finished =>
        assert Finishes(s.queue) >= 1 && s.handlers == map[];
        forall b
          ensures LocalInv(Lookup(s.handlers, b), Proj(rest, b), false)
        {
          ProjHead(s, b);
          assert LocalInv(Lookup(s.handlers, b), Proj(s.queue, b), s.stopping);
        }
      case Work(source, task) =>
        if task == StreamerDone {
          InvRemove(s, source);
        } else {
          InvRunWork(s, source, task);
        }
    }
  }

  lemma InvRunWork(s: State, source: SourceId, task: Task)
    requires Inv(s) && s.queue != [] && s.queue[0] == Work(source, task) && task != StreamerDone
    ensures Inv(RunHead(s))
  {
    var rest := s.queue[1..];
    var t := s.(queue := rest);
    assert BarrierInv(t);
    forall b
      ensures b != source ==> LocalInv(Lookup(s.handlers, b), Proj(rest, b), s.stopping)
    {
      ProjHead(s, b);
      assert LocalInv(Lookup(s.handlers, b), Proj(s.queue, b), s.stopping);
    }
    ProjHead(s, source);
    assert LocalInv(Lookup(s.handlers, source), Proj(s.queue, source), s.stopping);
    if source in s.handlers {
      LocalRun(s.handlers[source], task, Proj(rest, source), s.stopping);
      InvApply(t, source, RunTask(s.handlers[source], task));
    } else {
      hide BarrierInv;
      assert forall x :: x in Proj(rest, source) ==> x in Proj(s.queue, source);
    }
  }

  lemma InvStep(s: State, e: Event)
    requires Inv(s) && Allowed(s, e)
    ensures Inv(Step(s, e))
  {
    match e {
      case Start(source) =>
        var t := Step(s, e);
        forall b
          ensures LocalInv(Lookup(t.handlers, b), Proj(t.queue, b), t.stopping)
        {
          assert LocalInv(Lookup(s.handlers, b), Proj(s.queue, b), s.stopping);
          CountsZero(Proj(s.queue, b));
        }
      case Stream(source, outcome, early) =>
        if source in s.handlers {
          ProjMember(s.queue, source, Destroy);
          ProjMember(s.queue, source, StreamerDone);
          assert LocalInv(Lookup(s.handlers, source), Proj(s.queue, source), s.stopping);
          LocalStart(s.handlers[source], Proj(s.queue, source), s.stopping, outcome, early);
          InvApply(s, source, StartStreaming(s.handlers[source], outcome, early));
        }
      case Stop(source) =>
        if source in s.handlers {
          assert LocalInv(Lookup(s.handlers, source), Proj(s.queue, source), s.stopping);
          LocalStop(s.handlers[source], Proj(s.queue, source), s.stopping);
          InvApply(s, source, StopHandler(s.handlers[source]));
        }
      case Bus(source, message) =>
        if source in s.handlers {
          assert LocalInv(Lookup(s.handlers, source), Proj(s.queue, source), s.stopping);
          LocalBus(s.handlers[source], Proj(s.queue, source), s.stopping, message);
          InvApply(s, source, BusMessage(s.handlers[source], message));
        }
      case StopSources(order) => InvStopSources(s, order);
      case Run => if s.queue != [] { InvRun(s); }
    }
  }

  lemma {:induction false} ExecuteKeepsInv(s: State, events: seq<Event>)
    requires Inv(s) && AllowedRun(s, events)
    ensures Inv(Execute(s, events))
    decreases |events|
  {
    hide Inv;
    if events != [] {
      InvStep(s, events[0]);
      ExecuteKeepsInv(Step(s, events[0]), events[1..]);
    }
  }

  lemma ReachableInv(s: State)
    requires Reachable(s)
    ensures Inv(s)
  {
    var events :| AllowedRun(INITIAL, events) && Execute(INITIAL, events) == s;
    assert Inv(INITIAL);
    ExecuteKeepsInv(INITIAL, events);
  }

  // ---------------------------------------------------------------- safety

  /** Handles to the StreamingHandler of `source`: the queued ones and, while a Streamer lives, the
      three in its callbacks. */
  function HandlerRefs(s: State, source: SourceId): nat {
    Holders(Proj(s.queue, source))
    + (if source in s.handlers && s.handlers[source].streamer.Some? then 3 else 0)
  }

  function Holders(q: seq<Task>): nat {
    if q == [] then 0 else (if HoldsHandler(q[0]) then 1 else 0) + Holders(q[1..])
  }

  lemma {:induction false} NoHolders(q: seq<Task>)
    requires forall t :: t in q ==> CallsClient(t)
    ensures Holders(q) == 0
  {
    if q != [] {
      assert q[0] in q && forall t :: t in q[1..] ==> t in q;
      NoHolders(q[1..]);
    }
  }

  /** Teardown safety: when the shutdown callback of a streaming handler runs, the source is still
      registered, its Streamer is gone, no continuation in the queue holds a handle to the handler
      or to a Streamer (active() is false), and none does after the removal either. */
  lemma TeardownSafety(s: State, source: SourceId)
    requires Reachable(s) && s.queue != [] && s.queue[0] == Work(source, StreamerDone)
    ensures source in s.handlers && s.handlers[source].streamer.None?
    ensures HandlerRefs(s, source) == 0 && Refs(Proj(s.queue, source)) == 0
    ensures source !in RunHead(s).handlers
    ensures forall t :: Work(source, t) in RunHead(s).queue ==> CallsClient(t)
  {
    ReachableInv(s);
    hide Inv, RunHead;
    LastStageRuns(s, source);
    InvRun(s);
    OnlyCallbacks(RunHead(s), source);
  }

  lemma LastStageRuns(s: State, source: SourceId)
    requires Inv(s) && s.queue != [] && s.queue[0] == Work(source, StreamerDone)
    ensures source in s.handlers && s.handlers[source].streamer.None?
    ensures HandlerRefs(s, source) == 0 && Refs(Proj(s.queue, source)) == 0
    ensures source !in RunHead(s).handlers
  {
    var q := Proj(s.queue[1..], source);
    ProjHead(s, source);
    assert LocalInv(Lookup(s.handlers, source), Proj(s.queue, source), s.stopping);
    assert ([StreamerDone] + q)[0] in [StreamerDone] + q;
    LocalLast(s.handlers[source], q, s.stopping);
    NoHolders(q);
    assert ([StreamerDone] + q)[1..] == q;
  }

  lemma OnlyCallbacks(s: State, source: SourceId)
    requires Inv(s) && source !in s.handlers
    ensures forall t :: Work(source, t) in s.queue ==> CallsClient(t)
  {
    assert LocalInv(Lookup(s.handlers, source), Proj(s.queue, source), s.stopping);
    forall t | Work(source, t) in s.queue
      ensures CallsClient(t)
    {
      ProjMember(s.queue, source, t);
    }
  }

  /** Whatever runs finds what it points at: the handler of its source and, for bus continuations,
      a Streamer that still counts it. */
  lemma NothingDangles(s: State, source: SourceId, t: Task)
    requires Reachable(s) && Work(source, t) in s.queue && !CallsClient(t)
    ensures source in s.handlers
    ensures HoldsStreamer(t) ==> s.handlers[source].streamer.Some? && s.handlers[source].streamer.value.refs > 0
  {
    ReachableInv(s);
    var q := Proj(s.queue, source);
    ProjMember(s.queue, source, t);
    assert LocalInv(Lookup(s.handlers, source), q, s.stopping);
    CountsZero(q);
  }

  /** Neither stuck nor premature: a live Streamer has a Destroy in the queue exactly when its
      pipeline is gone and nothing refers to it, so every Destroy that meets a Streamer finds it so. */
  lemma DestroyIsTimely(s: State, source: SourceId)
    requires Reachable(s) && source in s.handlers && s.handlers[source].streamer.Some?
    ensures var st := s.handlers[source].streamer.value;
            && st.refs == Refs(Proj(s.queue, source))
            && (Work(source, Destroy) in s.queue <==> !st.pipeline && st.refs == 0)
  {
    ReachableInv(s);
    ProjMember(s.queue, source, Destroy);
    assert LocalInv(Lookup(s.handlers, source), Proj(s.queue, source), s.stopping);
  }

  /** While stopping, each source there is has exactly one shutdown stage ahead of it: one queued
      stage, or a callback waiting in its handler; it is posted and removed once. */
  lemma OneStagePerSource(s: State, source: SourceId)
    requires Reachable(s) && source in s.handlers
    ensures Stages(Proj(s.queue, source)) + (if s.handlers[source].shuttedDown then 1 else 0)
         == if s.stopping then 1 else 0
  {
    ReachableInv(s);
    assert LocalInv(Lookup(s.handlers, source), Proj(s.queue, source), s.stopping);
  }

  lemma {:induction false} FinishQueued(queue: seq<Cont>)
    ensures Finishes(queue) > 0 <==> Finished in queue
  {
    if queue != [] {
      FinishQueued(queue[1..]);
      assert queue == [queue[0]] + queue[1..];
    }
  }

  /** The barrier: the callback of stopHandleSources has been posted once for every finished call and
      not yet for a running one, is in the queue only when no source is left, and by then every source
      there was has been removed exactly once. */
  lemma BarrierIsExact(s: State)
    requires Reachable(s)
    ensures s.finishes == s.stops - (if s.stopping && s.handlers != map[] then 1 else 0)
    ensures Finished in s.queue <==> s.stopping && s.handlers == map[]
    ensures Finished in s.queue ==> (set k | k in s.removed) == s.stopped && |s.removed| == |s.stopped|
  {
    ReachableInv(s);
    FinishQueued(s.queue);
    if Finished in s.queue {
      assert (set k | k in s.removed) == s.stopped;
      DistinctLength(s.removed);
    }
  }

  lemma {:induction false} DistinctLength(s: seq<SourceId>)
    requires forall i, j :: 0 <= i < j < |s| ==> s[i] != s[j]
    ensures |set k | k in s| == |s|
  {
    if s != [] {
      var last, front := s[|s| - 1], s[..|s| - 1];
      DistinctLength(front);
      assert (set k | k in s) == (set k | k in front) + {last};
    }
  }

  /** The facts about the head of the queue on which running it relies. */
  lemma HeadIsSafe(s: State)
    requires Inv(s) && s.queue != []
    ensures s.queue[0].Work? && !CallsClient(s.queue[0].task) ==> s.queue[0].source in s.handlers
    ensures s.queue[0].Work? && HoldsStreamer(s.queue[0].task) ==>
              var h := s.handlers[s.queue[0].source];
              h.streamer.Some? && h.streamer.value.refs > 0
    ensures s.queue[0].Work? && s.queue[0].task == StreamerDone ==> s.handlers[s.queue[0].source].streamer.None?
  {
    if s.queue[0].Work? {
      var source, t := s.queue[0].source, s.queue[0].task;
      var q := Proj(s.queue, source);
      ProjMember(s.queue, source, t);
      assert LocalInv(Lookup(s.handlers, source), q, s.stopping);
      CountsZero(q);
    }
  }

  // ---------------------------------------------------------------- the chain completes

  /** An upper bound on the work a task still causes. */
  function Weight(c: Cont): nat {
    match c
    case Finished => 1
    case Work(_, t) =>
      match t
      case CallStreaming => 1
      case CallFailed => 1
      case Streaming => 2
      case Failed => 2
      case StreamerDone => 2
      case Destroy => 3
      case FolderDone => 4
      case SplitterDone => 5
      case Playing => 6
      case Error => 9
      case Eos => 9
  }

  function TotalWeight(queue: seq<Cont>): nat {
    if queue == [] then 0 else Weight(queue[0]) + TotalWeight(queue[1..])
  }

  lemma {:induction false} WeightConcat(a: seq<Cont>, b: seq<Cont>)
    ensures TotalWeight(a + b) == TotalWeight(a) + TotalWeight(b)
  {
    if a == [] {
      assert a + b == b;
    } else {
      WeightConcat(a[1..], b);
      assert (a + b)[1..] == a[1..] + b;
    }
  }

  lemma TagOne(source: SourceId, t: Task)
    ensures TotalWeight(Tag(source, [t])) == Weight(Work(source, t))
  {}

  lemma TagSplit(source: SourceId, t: Task, rest: seq<Task>)
    ensures TotalWeight(Tag(source, [t] + rest)) == Weight(Work(source, t)) + TotalWeight(Tag(source, rest))
  {
    assert ([t] + rest)[1..] == rest;
  }

  lemma EffectIsLighter(h: Handler, source: SourceId, t: Task)
    ensures TotalWeight(Tag(source, RunTask(h, t).posts)) < Weight(Work(source, t))
  {
    var posts := RunTask(h, t).posts;
    if HoldsStreamer(t) && posts != [] {
      var st := h.streamer.value;
      var stop := StopStreamer(st);
      var last := DropRef(if t.Playing? then st else stop.streamer).posts;
      var first := if t.Playing? then Streaming else Failed;
      assert posts == [first] + last;
      TagSplit(source, first, last);
      if last != [] { TagOne(source, Destroy); }
    } else if posts != [] {
      assert posts == [posts[0]];
      TagOne(source, posts[0]);
    }
  }

  lemma RunIsLighter(s: State)
    requires s.queue != []
    ensures TotalWeight(RunHead(s).queue) < TotalWeight(s.queue)
  {
    var rest := s.queue[1..];
    var t := s.(queue := rest);
    match s.queue[0] {
      case Finished =>
      case Work(source, task) =>
        if task == StreamerDone {
          WeightConcat(rest, [Finished]);
        } else if source in s.handlers {
          var posts := RunTask(s.handlers[source], task).posts;
          WeightConcat(rest, Tag(source, posts));
          EffectIsLighter(s.handlers[source], source, task);
        }
    }
  }

  /** Runs the queue until it is empty, with no outside event in between. */
  function Drain(s: State): State
    decreases TotalWeight(s.queue)
  {
    if s.queue == [] then s
    else
      RunIsLighter(s);
      Drain(RunHead(s))
  }

  lemma {:induction false} DrainKeepsInv(s: State)
    requires Inv(s)
    ensures Inv(Drain(s)) && Drain(s).queue == []
    decreases TotalWeight(s.queue)
  {
    hide Inv;
    if s.queue != [] {
      RunIsLighter(s);
      InvRun(s);
      DrainKeepsInv(RunHead(s));
    }
  }

  /** With nothing queued, nothing is stopping and nothing is waiting to be destroyed. */
  lemma QuietState(s: State)
    requires Inv(s) && s.queue == []
    ensures !s.stopping
    ensures forall k :: k in s.handlers && s.handlers[k].streamer.Some? ==> s.handlers[k].streamer.value.pipeline
  {
    if s.handlers != map[] {
      var k :| k in s.handlers;
      assert LocalInv(Lookup(s.handlers, k), Proj(s.queue, k), s.stopping);
    }
    forall k | k in s.handlers && s.handlers[k].streamer.Some?
      ensures s.handlers[k].streamer.value.pipeline
    {
      assert LocalInv(Lookup(s.handlers, k), Proj(s.queue, k), s.stopping);
    }
  }

  /** Stopping a stream always completes: with no further event of the source, the queue runs dry with its
      Streamer gone. */
  lemma StopCompletes(s: State, source: SourceId)
    requires Reachable(s) && source in s.handlers
    ensures var t := Drain(Step(s, Stop(source)));
            t.queue == [] && (source in t.handlers ==> t.handlers[source].streamer.None?)
  {
    ReachableInv(s);
    InvStep(s, Stop(source));
    var t := Step(s, Stop(source));
    DrainKeepsInv(t);
    QuietState(Drain(t));
    DrainMakesNoPipeline(t, source);
  }

  predicate NoPipeline(s: State, source: SourceId) {
    source in s.handlers && s.handlers[source].streamer.Some? ==> !s.handlers[source].streamer.value.pipeline
  }

  lemma {:induction false} DrainMakesNoPipeline(s: State, source: SourceId)
    requires NoPipeline(s, source)
    ensures NoPipeline(Drain(s), source)
    decreases TotalWeight(s.queue)
  {
    if s.queue != [] {
      RunIsLighter(s);
      RunMakesNoPipeline(s, source);
      DrainMakesNoPipeline(RunHead(s), source);
    }
  }

  lemma RunMakesNoPipeline(s: State, source: SourceId)
    requires NoPipeline(s, source) && s.queue != []
    ensures NoPipeline(RunHead(s), source)
  {}

  /** Shutdown always completes: from any reachable state, once no more outside events come, the
      queue runs dry; a stop under way is then over and has left no source behind, its callback
      has been posted, and every Streamer still there has a pipeline. */
  lemma ShutdownCompletes(s: State)
    requires Reachable(s)
    ensures var t := Drain(s);
            && t.queue == [] && !t.stopping && t.finishes == t.stops
            && (s.stopping ==> t.handlers == map[])
            && forall k :: k in t.handlers && t.handlers[k].streamer.Some? ==> t.handlers[k].streamer.value.pipeline
  {
    ReachableInv(s);
    DrainKeepsInv(s);
    QuietState(Drain(s));
    if s.stopping {
      StopRemovesEverything(s);
    }
  }

  lemma {:induction false} StopRemovesEverything(s: State)
    requires Inv(s) && s.stopping
    ensures Drain(s).handlers == map[]
    decreases TotalWeight(s.queue)
  {
    assert s.queue != [] by {
      if s.queue == [] { QuietState(s); }
    }
    RunIsLighter(s);
    InvRun(s);
    if s.queue[0].Finished? {
      assert Finishes(s.queue) >= 1 && s.handlers == map[];
      NoHandlersNoStart(RunHead(s));
    } else {
      StopRemovesEverything(RunHead(s));
    }
  }

  lemma {:induction false} NoHandlersNoStart(s: State)
    requires s.handlers == map[]
    ensures Drain(s).handlers == map[]
    decreases TotalWeight(s.queue)
  {
    if s.queue != [] {
      RunIsLighter(s);
      assert RunHead(s).handlers == map[];
      NoHandlersNoStart(RunHead(s));
    }
  }

  // ---------------------------------------------------------------- why stream() must wait for a stale Destroy

  function Runs(n: nat): seq<Event> {
    if n == 0 then [] else [Run] + Runs(n - 1)
  }

  /** A Destroy about to run on a Streamer that has a pipeline or is still referred to. */
  predicate PrematureDestroy(s: State, source: SourceId) {
    && s.queue != [] && s.queue[0] == Work(source, Destroy)
    && source in s.handlers && s.handlers[source].streamer.Some?
    && (s.handlers[source].streamer.value.pipeline || s.handlers[source].streamer.value.refs > 0)
  }

  /** A Streamer still referred to, with a Destroy at position k and no other continuation that could
      release or remove it in front. */
  ghost predicate Doomed(s: State, source: SourceId, k: nat) {
    && k < |s.queue| && s.queue[k] == Work(source, Destroy)
    && source in s.handlers && s.handlers[source].streamer.Some? && s.handlers[source].streamer.value.refs > 0
    && forall i :: 0 <= i < k && s.queue[i].Work? && s.queue[i].source == source ==>
         s.queue[i].task in {Streaming, Failed, CallStreaming, CallFailed, SplitterDone, FolderDone}
  }

  lemma {:induction false} DoomedRuns(s: State, source: SourceId, k: nat)
    requires Doomed(s, source, k)
    ensures AllowedRun(s, Runs(k)) && PrematureDestroy(Execute(s, Runs(k)), source)
    decreases k
  {
    if k > 0 {
      var t := RunHead(s);
      assert Runs(k)[1..] == Runs(k - 1);
      assert s.queue[1..] <= t.queue;
      assert forall i :: 0 <= i < k ==> t.queue[i] == s.queue[i + 1];
      DoomedRuns(t, source, k - 1);
    }
  }

  /** After these events the next task does not destroy a Streamer with a pipeline. */
  ghost predicate Survives(s: State, source: SourceId, events: seq<Event>) {
    AllowedRun(s, events) ==> !PrematureDestroy(Execute(s, events), source)
  }

  /** stream() is safe exactly behind its guard. Wherever it can be called, during a stop or not, and
      however its state change goes, the new Streamer is never destroyed with a pipeline or while
      something refers to it, in any allowed continuation, if and only if no Destroy of the previous
      one is queued when it is made. */
  lemma StreamIsSafeExactly(s: State, source: SourceId, outcome: Outcome, early: seq<BusTask>)
    requires Reachable(s) && source in s.handlers && s.handlers[source].streamer.None?
    requires Work(source, StreamerDone) !in s.queue && outcome != Invalid
    ensures var t := Step(s, Stream(source, outcome, early));
            NoStaleDestroy(s, source) <==> forall events :: Survives(t, source, events)
  {
    ReachableInv(s);
    var e := Stream(source, outcome, early);
    var t := Step(s, e);
    if NoStaleDestroy(s, source) {
      InvStep(s, e);
      forall events
        ensures Survives(t, source, events)
      {
        if AllowedRun(t, events) {
          ExecuteKeepsInv(t, events);
          NotPremature(Execute(t, events), source);
        }
      }
    } else {
      NoBusQueued(s, source);
      var events := StaleDestroyIsFatal(s, source, outcome, early);
      assert !Survives(t, source, events);
    }
  }

  lemma NoBusQueued(s: State, source: SourceId)
    requires Inv(s) && source in s.handlers && s.handlers[source].streamer.None?
    ensures forall x :: Work(source, x) in s.queue ==> !HoldsStreamer(x)
  {
    var q := Proj(s.queue, source);
    assert LocalInv(Lookup(s.handlers, source), q, s.stopping);
    CountsZero(q);
    forall x | Work(source, x) in s.queue
      ensures !HoldsStreamer(x)
    {
      ProjMember(s.queue, source, x);
    }
  }

  lemma NotPremature(s: State, source: SourceId)
    requires Inv(s)
    ensures !PrematureDestroy(s, source)
  {
    ProjMember(s.queue, source, Destroy);
    assert LocalInv(Lookup(s.handlers, source), Proj(s.queue, source), s.stopping);
  }

  /** A bus error behind the stale Destroy still refers to the new Streamer when it runs. */
  lemma StaleDestroyIsFatal(s: State, source: SourceId, outcome: Outcome, early: seq<BusTask>)
    returns (events: seq<Event>)
    requires source in s.handlers && s.handlers[source].streamer.None? && outcome != Invalid
    requires !NoStaleDestroy(s, source) && Work(source, StreamerDone) !in s.queue
    requires forall x :: Work(source, x) in s.queue ==> !HoldsStreamer(x)
    ensures var t := Step(s, Stream(source, outcome, early));
            AllowedRun(t, events) && PrematureDestroy(Execute(t, events), source)
  {
    var t := Step(s, Stream(source, outcome, early));
    var u := Step(t, Bus(source, Error));
    assert s.queue <= t.queue <= u.queue;
    var k := FirstDestroy(s.queue, source);
    forall i | 0 <= i < k && u.queue[i].Work? && u.queue[i].source == source
      ensures u.queue[i].task in {Streaming, Failed, CallStreaming, CallFailed, SplitterDone, FolderDone}
    {
      assert u.queue[i] == s.queue[i] && Work(source, u.queue[i].task) in s.queue;
    }
    DoomedRuns(u, source, k);
    events := [Bus(source, Error)] + Runs(k);
    RunFirst(t, Bus(source, Error), Runs(k));
  }

  lemma {:induction false} FirstDestroy(queue: seq<Cont>, source: SourceId) returns (k: nat)
    requires Work(source, Destroy) in queue
    ensures k < |queue| && queue[k] == Work(source, Destroy)
    ensures forall i :: 0 <= i < k ==> queue[i] != Work(source, Destroy)
  {
    if queue[0] == Work(source, Destroy) {
      k := 0;
    } else {
      assert queue == [queue[0]] + queue[1..];
      k := FirstDestroy(queue[1..], source);
      k := k + 1;
    }
  }

  /** Such states are reachable: stopping a stream twice posts Destroy twice, and the second is still
      queued when the first has run. */
  lemma StaleDestroyIsReachable(source: SourceId)
    ensures exists s :: Reachable(s) && !s.stopping && source in s.handlers && !NoStaleDestroy(s, source)
  {
    var idle := Handler(None, false);
    var live, gone := Handler(Some(Streamer(true, 0)), false), Handler(Some(Streamer(false, 0)), false);
    var d := Work(source, Destroy);
    StopTwice(source, idle, live, gone, d);
    var last := One(source, [d], idle);
    hide Step, Allowed;
    var e4 := [Run];
    RunFirst(One(source, [d, d], gone), Run, []);
    var e3 := [Stop(source)] + e4;
    RunFirst(One(source, [d], gone), Stop(source), e4);
    var e2 := [Stop(source)] + e3;
    RunFirst(One(source, [], live), Stop(source), e3);
    var e1 := [Stream(source, Async, [])] + e2;
    RunFirst(One(source, [], idle), Stream(source, Async, []), e2);
    RunFirst(INITIAL, Start(source), e1);
    assert [Run] + [] == e4;
    assert Reachable(last);
    assert d in last.queue;
  }

  /** A state with one source that no stop has reached. */
  function One(source: SourceId, queue: seq<Cont>, h: Handler): State {
    State(queue, map[source := h], false, {}, [], 0, 0)
  }

  lemma RunFirst(s: State, e: Event, rest: seq<Event>)
    requires Allowed(s, e) && AllowedRun(Step(s, e), rest)
    ensures AllowedRun(s, [e] + rest) && Execute(s, [e] + rest) == Execute(Step(s, e), rest)
  {
    assert ([e] + rest)[1..] == rest;
  }

  lemma StopTwice(source: SourceId, idle: Handler, live: Handler, gone: Handler, d: Cont)
    requires idle == Handler(None, false) && d == Work(source, Destroy)
    requires live == Handler(Some(Streamer(true, 0)), false) && gone == Handler(Some(Streamer(false, 0)), false)
    ensures Allowed(INITIAL, Start(source)) && Step(INITIAL, Start(source)) == One(source, [], idle)
    ensures Allowed(One(source, [], idle), Stream(source, Async, []))
    ensures Step(One(source, [], idle), Stream(source, Async, [])) == One(source, [], live)
    ensures Allowed(One(source, [], live), Stop(source))
    ensures Step(One(source, [], live), Stop(source)) == One(source, [d], gone)
    ensures Allowed(One(source, [d], gone), Stop(source))
    ensures Step(One(source, [d], gone), Stop(source)) == One(source, [d, d], gone)
    ensures Allowed(One(source, [d, d], gone), Run) && Step(One(source, [d, d], gone), Run) == One(source, [d], idle)
  {
    assert Tag(source, [Destroy]) == [d];
    assert [d, d][1..] == [d];
  }
}
