/**
 What becomes of bus messages and of the outcomes of stream(): over every run of Teardown each
 of them is queued once, run once and reported to the client once, through the callback it
 calls for.
 */
module Notifications {

  import opened Options
  import opened Teardown

  function Count<T(==)>(q: seq<T>, x: T): nat {
    if q == [] then 0 else (if q[0] == x then 1 else 0) + Count(q[1..], x)
  }

  lemma {:induction false} CountConcat<T>(a: seq<T>, b: seq<T>, x: T)
    ensures Count(a + b, x) == Count(a, x) + Count(b, x)
  {
    if a == [] {
      assert a + b == b;
    } else {
      CountConcat(a[1..], b, x);
      assert (a + b)[1..] == a[1..] + b;
    }
  }

  lemma CountCons<T>(y: T, q: seq<T>, x: T)
    ensures Count([y] + q, x) == (if y == x then 1 else 0) + Count(q, x)
  {
    assert ([y] + q)[1..] == q;
  }

  lemma {:induction false} CountTag(source: SourceId, tasks: seq<Task>, k: SourceId, t: Task)
    ensures Count(Tag(source, tasks), Work(k, t)) == if source == k then Count(tasks, t) else 0
  {
    if tasks != [] {
      CountTag(source, tasks[1..], k, t);
      assert Tag(source, tasks)[1..] == Tag(source, tasks[1..]);
    }
  }

  lemma {:induction false} CountStages(order: seq<SourceId>, k: SourceId, t: Task)
    requires !IsStage(t)
    ensures Count(FirstStages(order), Work(k, t)) == 0
  {
    if order != [] {
      CountStages(order[1..], k, t);
      assert FirstStages(order)[1..] == FirstStages(order[1..]);
    }
  }

  lemma {:induction false} NoneCounted(q: seq<Task>, t: Task)
    requires t !in q
    ensures Count(q, t) == 0
  {
    if q != [] {
      NoneCounted(q[1..], t);
    }
  }

  predicate IsIdle(s: State, k: SourceId) {
    k in s.handlers && s.handlers[k].streamer.None?
  }

  predicate HasPipeline(s: State, k: SourceId) {
    k in s.handlers && s.handlers[k].streamer.Some? && s.handlers[k].streamer.value.pipeline
  }

  // ---------------------------------------------------------------- one call of stream()

  /** On an idle source the bus messages sent during the call are queued first, in order, and behind them
      one task for the outcome: Failed exactly for a failure of the state change, Streaming exactly for a
      success, and the client's failure callback exactly for a pipeline that could not be built. The new
      Streamer has a pipeline and is referred to once per message; without a pipeline there is none. */
  lemma StartIsReported(s: State, k: SourceId, outcome: Outcome, early: seq<BusTask>)
    requires IsIdle(s, k)
    ensures var t := Step(s, Stream(k, outcome, early));
            var messages := if outcome == Invalid then 0 else |early|;
            && s.queue <= t.queue
            && |t.queue| == |s.queue| + messages + (if outcome == Async then 0 else 1)
            && (forall i :: 0 <= i < messages ==> t.queue[|s.queue| + i] == Work(k, early[i]))
            && t.handlers[k].streamer == (if outcome == Invalid then None else Some(Streamer(true, |early|)))
            && Grows(s, t, Work(k, Failed), outcome == StateFailure)
            && Grows(s, t, Work(k, Streaming), outcome == Success)
            && Grows(s, t, Work(k, CallFailed), outcome == Invalid)
            && Grows(s, t, Work(k, CallStreaming), false)
  {
    TagTasks(k, StartStreaming(s.handlers[k], outcome, early).posts);
    hide Count;
    StreamPosts(s, k, outcome, early, k, Failed);
    StreamPosts(s, k, outcome, early, k, Streaming);
    StreamPosts(s, k, outcome, early, k, CallFailed);
    StreamPosts(s, k, outcome, early, k, CallStreaming);
  }

  /** One more `c` is queued, or as many as before. */
  predicate Grows(s: State, t: State, c: Cont, more: bool) {
    Count(t.queue, c) == Count(s.queue, c) + (if more then 1 else 0)
  }

  lemma {:induction false} TagTasks(k: SourceId, tasks: seq<Task>)
    ensures |Tag(k, tasks)| == |tasks|
    ensures forall i :: 0 <= i < |tasks| ==> Tag(k, tasks)[i] == Work(k, tasks[i])
  {
    if tasks != [] {
      TagTasks(k, tasks[1..]);
    }
  }

  // ---------------------------------------------------------------- bus messages

  /** How many bus messages `t` of source `k` an event brings to a pipeline. */
  function Sent(s: State, e: Event, k: SourceId, t: BusTask): nat {
    match e
    case Bus(source, message) => if source == k && message == t && HasPipeline(s, k) then 1 else 0
    case Stream(source, outcome, early) =>
      if source == k && IsIdle(s, k) && outcome != Invalid then Count<Task>(early, t) else 0
    case _ => 0
  }

  function Ran(s: State, e: Event, c: Cont): nat {
    if e.Run? && s.queue != [] && s.queue[0] == c then 1 else 0
  }

  function TotalSent(s: State, events: seq<Event>, k: SourceId, t: BusTask): nat
    decreases |events|
  {
    if events == [] then 0 else Sent(s, events[0], k, t) + TotalSent(Step(s, events[0]), events[1..], k, t)
  }

  function TotalRan(s: State, events: seq<Event>, c: Cont): nat
    decreases |events|
  {
    if events == [] then 0 else Ran(s, events[0], c) + TotalRan(Step(s, events[0]), events[1..], c)
  }

  /** What an event posts for its source: nothing of another kind reaches the queue from a step, except
      the stages and the callback of stopHandleSources. */
  lemma PostsCounted(s: State, source: SourceId, e: Effect, k: SourceId, t: Task)
    ensures Count(Apply(s, source, e).queue, Work(k, t))
         == Count(s.queue, Work(k, t)) + (if source == k then Count(e.posts, t) else 0)
  {
    CountConcat(s.queue, Tag(source, e.posts), Work(k, t));
    CountTag(source, e.posts, k, t);
  }

  /** The queue after an event that runs nothing. */
  lemma EventPosts(s: State, e: Event, k: SourceId, t: Task)
    requires !e.Run? && !IsStage(t) && t != Destroy
    ensures Count(Step(s, e).queue, Work(k, t)) == Count(s.queue, Work(k, t))
              + (if HoldsStreamer(t) then Sent(s, e, k, t) else Started(s, e, k, t))
  {
    match e {
      case Start(_) =>
      case StopSources(order) =>
        CountStages(order, k, t);
        CountConcat(s.queue, FirstStages(order), Work(k, t));
        CountConcat(s.queue, [Finished], Work(k, t));
        CountCons(Finished, [], Work(k, t));
      case Stop(source) =>
        if source in s.handlers {
          var e := StopHandler(s.handlers[source]);
          PostsCounted(s, source, e, k, t);
          NoneCounted(e.posts, t);
        }
      case Bus(source, message) =>
        if source in s.handlers {
          var e := BusMessage(s.handlers[source], message);
          PostsCounted(s, source, e, k, t);
          CountCons(message, [], t);
          assert [message] + [] == [message];
        }
      case Stream(source, outcome, early) =>
        if source in s.handlers { StreamPosts(s, source, outcome, early, k, t); }
    }
  }

  /** The task that the outcome of stream() posts for an idle source. */
  function Started(s: State, e: Event, k: SourceId, t: Task): nat {
    if !e.Stream? || e.source != k || !IsIdle(s, k) then 0
    else
      match t
      case CallFailed => if e.outcome == Invalid then 1 else 0
      case Failed => if e.outcome == StateFailure then 1 else 0
      case Streaming => if e.outcome == Success then 1 else 0
      case _ => 0
  }

  lemma StreamPosts(s: State, source: SourceId, outcome: Outcome, early: seq<BusTask>, k: SourceId, t: Task)
    requires source in s.handlers && !IsStage(t) && t != Destroy
    ensures var e := Stream(source, outcome, early);
            Count(Step(s, e).queue, Work(k, t)) == Count(s.queue, Work(k, t))
              + (if HoldsStreamer(t) then Sent(s, e, k, t) else Started(s, e, k, t))
  {
    var effect := StartStreaming(s.handlers[source], outcome, early);
    PostsCounted(s, source, effect, k, t);
    ReplyCounted(outcome, t);
    CountConcat(early, Reply(outcome), t);
    if !HoldsStreamer(t) { NoneCounted(early, t); }
    assert !IsIdle(s, source) ==> effect.posts == [] && Count(effect.posts, t) == 0;
  }

  lemma ReplyCounted(outcome: Outcome, t: Task)
    ensures Count(Reply(outcome), t) ==
              match t
              case CallFailed => if outcome == Invalid then 1 else 0
              case Failed => if outcome == StateFailure then 1 else 0
              case Streaming => if outcome == Success then 1 else 0
              case _ => 0
  {
    var reply := Reply(outcome);
    if reply != [] {
      assert reply == [reply[0]] + [];
      CountCons(reply[0], [], t);
    }
  }

  /** The queue after running its oldest continuation. */
  lemma RunPosts(s: State, k: SourceId, t: Task)
    requires Inv(s) && s.queue != [] && !IsStage(t) && t != Destroy
    ensures Count(RunHead(s).queue, Work(k, t)) + (if s.queue[0] == Work(k, t) then 1 else 0)
         == Count(s.queue, Work(k, t)) + (if Posts(s.queue[0], k, t) then 1 else 0)
  {
    HeadIsSafe(s);
    var head, rest := s.queue[0], s.(queue := s.queue[1..]);
    assert s.queue == [head] + rest.queue;
    CountCons(head, rest.queue, Work(k, t));
    if head.Work? && head.task != StreamerDone {
      if head.source in s.handlers {
        var effect := RunTask(s.handlers[head.source], head.task);
        PostsCounted(rest, head.source, effect, k, t);
        TaskPosts(s.handlers[head.source], head.task, t);
      }
    } else {
      CountConcat(rest.queue, [Finished], Work(k, t));
      CountCons(Finished, [], Work(k, t));
    }
  }

  /** Whether running `c` posts task `t` for `k`: the tasks that tell the handler, and the callbacks that
      tell the client. */
  predicate Posts(c: Cont, k: SourceId, t: Task) {
    c.Work? && c.source == k &&
    match t
    case Streaming => c.task == Playing
    case Failed => c.task == Error || c.task == Eos
    case CallStreaming => c.task == Streaming
    case CallFailed => c.task == Failed
    case _ => false
  }

  lemma TaskPosts(h: Handler, task: Task, t: Task)
    requires HoldsStreamer(task) ==> h.streamer.Some? && h.streamer.value.refs > 0
    requires task != StreamerDone && !IsStage(t) && t != Destroy
    ensures Count(RunTask(h, task).posts, t) == if Posts(Work("", task), "", t) then 1 else 0
  {
    if HoldsStreamer(task) {
      BusTaskPosts(h, task, t);
    } else {
      OtherTaskPosts(h, task);
      hide RunTask;
      AtMostOneCounted(RunTask(h, task).posts, t);
    }
  }

  lemma BusTaskPosts(h: Handler, task: Task, t: Task)
    requires HoldsStreamer(task) && h.streamer.Some? && h.streamer.value.refs > 0
    requires !IsStage(t) && t != Destroy
    ensures Count(RunTask(h, task).posts, t) == if Posts(Work("", task), "", t) then 1 else 0
  {
    hide RunTask, Count;
    BusEffect(h, task);
    var first := if task.Playing? then Streaming else Failed;
    var last := if LastBus(h.streamer.value, task) then [Destroy] else [];
    CountCons(first, last, t);
    AtMostOneCounted(last, t);
  }

  lemma OtherTaskPosts(h: Handler, task: Task)
    requires !HoldsStreamer(task) && task != StreamerDone
    ensures task == Streaming ==> RunTask(h, task).posts == [CallStreaming]
    ensures task == Failed ==> RunTask(h, task).posts == [CallFailed]
    ensures |RunTask(h, task).posts| <= 1
    ensures task != Streaming && task != Failed ==>
              forall x :: x in RunTask(h, task).posts ==> IsStage(x) || x == Destroy
  {}

  lemma AtMostOneCounted(q: seq<Task>, t: Task)
    requires |q| <= 1
    ensures Count(q, t) == if q != [] && q[0] == t then 1 else 0
  {
    if q != [] { assert q == [q[0]] + []; }
  }

  /** Bus messages are conserved over every run: queued and run ones together are those sent. */
  lemma {:induction false} MessagesAreConserved(s: State, events: seq<Event>, k: SourceId, t: BusTask)
    requires Inv(s) && AllowedRun(s, events)
    ensures Count(Execute(s, events).queue, Work(k, t)) + TotalRan(s, events, Work(k, t))
         == Count(s.queue, Work(k, t)) + TotalSent(s, events, k, t)
    decreases |events|
  {
    if events != [] {
      var e := events[0];
      MessageStep(s, e, k, t);
      InvStep(s, e);
      hide Inv, Step, Ran, Sent, Allowed;
      MessagesAreConserved(Step(s, e), events[1..], k, t);
    }
  }

  lemma MessageStep(s: State, e: Event, k: SourceId, t: BusTask)
    requires Inv(s)
    ensures Count(Step(s, e).queue, Work(k, t)) + Ran(s, e, Work(k, t))
         == Count(s.queue, Work(k, t)) + Sent(s, e, k, t)
  {
    if !e.Run? {
      EventPosts(s, e, k, t);
    } else if s.queue != [] {
      RunPosts(s, k, t);
    }
  }

  // ---------------------------------------------------------------- what the client is told

  /** The handler's task and the client's callback for a success or a failure. */
  function Told(good: bool): Task {
    if good then Streaming else Failed
  }

  function Callback(good: bool): Task {
    if good then CallStreaming else CallFailed
  }

  /** Outcomes of stream() that are a success or a failure. */
  function Ended(s: State, e: Event, k: SourceId, good: bool): nat {
    if e.Stream? && e.source == k && IsIdle(s, k)
       && (if good then e.outcome == Success else e.outcome == Invalid || e.outcome == StateFailure) then 1 else 0
  }

  function TotalEnded(s: State, events: seq<Event>, k: SourceId, good: bool): nat
    decreases |events|
  {
    if events == [] then 0 else Ended(s, events[0], k, good) + TotalEnded(Step(s, events[0]), events[1..], k, good)
  }

  /** Notifications under way to the client. */
  function Waiting(s: State, k: SourceId, good: bool): nat {
    Count(s.queue, Work(k, Told(good))) + Count(s.queue, Work(k, Callback(good)))
  }

  /** Bus continuations run so far that report a success or a failure. */
  function TotalReports(s: State, events: seq<Event>, k: SourceId, good: bool): nat {
    if good then TotalRan(s, events, Work(k, Playing))
    else TotalRan(s, events, Work(k, Error)) + TotalRan(s, events, Work(k, Eos))
  }

  lemma NotificationStep(s: State, e: Event, k: SourceId, good: bool)
    requires Inv(s)
    ensures Waiting(Step(s, e), k, good) + Ran(s, e, Work(k, Callback(good)))
         == Waiting(s, k, good) + Ended(s, e, k, good)
            + (if good then Ran(s, e, Work(k, Playing)) else Ran(s, e, Work(k, Error)) + Ran(s, e, Work(k, Eos)))
  {
    if !e.Run? {
      EventPosts(s, e, k, Told(good));
      EventPosts(s, e, k, Callback(good));
    } else if s.queue != [] {
      RunPosts(s, k, Told(good));
      RunPosts(s, k, Callback(good));
    }
  }

  lemma {:induction false} NotificationsAreConserved(s: State, events: seq<Event>, k: SourceId, good: bool)
    requires Inv(s) && AllowedRun(s, events)
    ensures Waiting(Execute(s, events), k, good) + TotalRan(s, events, Work(k, Callback(good)))
         == Waiting(s, k, good) + TotalEnded(s, events, k, good) + TotalReports(s, events, k, good)
    decreases |events|
  {
    if events != [] {
      var e := events[0];
      NotificationStep(s, e, k, good);
      InvStep(s, e);
      hide Inv, Step, Ran, Ended, Allowed, Waiting;
      NotificationsAreConserved(Step(s, e), events[1..], k, good);
    }
  }

  /** Nothing is lost and nothing is invented: in every run, once the queue is empty, the client's success
      callback has run once per successful stream() and once per Playing message of a pipeline, and its
      failure callback once per failed stream() and once per error or end-of-stream message. */
  lemma EveryOutcomeIsReported(events: seq<Event>, k: SourceId)
    requires AllowedRun(INITIAL, events) && Execute(INITIAL, events).queue == []
    ensures TotalRan(INITIAL, events, Work(k, CallStreaming))
         == TotalEnded(INITIAL, events, k, true) + TotalSent(INITIAL, events, k, Playing)
    ensures TotalRan(INITIAL, events, Work(k, CallFailed))
         == TotalEnded(INITIAL, events, k, false) + TotalSent(INITIAL, events, k, Error)
            + TotalSent(INITIAL, events, k, Eos)
  {
    assert Inv(INITIAL);
    NotificationsAreConserved(INITIAL, events, k, true);
    NotificationsAreConserved(INITIAL, events, k, false);
    MessagesAreConserved(INITIAL, events, k, Playing);
    MessagesAreConserved(INITIAL, events, k, Error);
    MessagesAreConserved(INITIAL, events, k, Eos);
  }
}
