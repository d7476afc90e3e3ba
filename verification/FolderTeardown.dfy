/**
 The folders of the sources beside the shutdown chain of DeviceBox/Controller.cpp: the first
 stage of a source shuts its folder down, and the last one removes the source, whatever its
 folder is still waiting for. The assertion of Controller::removeSource on the folder is
 decided here.
 */
module FolderTeardown {

  import opened Options
  import opened Teardown
  import FolderSync

  type FolderEvent = FolderSync.Event

  /** Each registered source has a folder that was started with it; `folders` holds what has happened
      to it since. */
  datatype Joint = Joint(control: State, folders: map<SourceId, seq<FolderEvent>>)

  const START := Joint(INITIAL, map[])

  datatype JointEvent = System(event: Event) | Folder(source: SourceId, happens: FolderEvent)

  /** Whether `event` runs the stage that shuts down the folder of `source`. */
  predicate ShutsDown(s: State, event: Event, source: SourceId) {
    event.Run? && s.queue != [] && s.queue[0] == Work(source, SplitterDone)
  }

  function FoldersAfter(j: Joint, event: Event): map<SourceId, seq<FolderEvent>> {
    map k | k in Step(j.control, event).handlers ::
      (if k in j.folders then j.folders[k] else [])
      + (if ShutsDown(j.control, event, k) then [FolderSync.Shutdown] else [])
  }

  /** The folders take their own steps; only the chain shuts them down. */
  function JointStep(j: Joint, e: JointEvent): Joint {
    match e
    case System(event) => Joint(Step(j.control, event), FoldersAfter(j, event))
    case Folder(source, happens) =>
      if source in j.folders && happens != FolderSync.Shutdown
      then j.(folders := j.folders[source := j.folders[source] + [happens]])
      else j
  }

  ghost predicate JointRun(j: Joint, events: seq<JointEvent>)
    decreases |events|
  {
    events == [] ||
    ((events[0].System? ==> Allowed(j.control, events[0].event)) && JointRun(JointStep(j, events[0]), events[1..]))
  }

  function JointExecute(j: Joint, events: seq<JointEvent>): Joint
    decreases |events|
  {
    if events == [] then j else JointExecute(JointStep(j, events[0]), events[1..])
  }

  ghost predicate JointReachable(j: Joint) {
    exists events :: JointRun(START, events) && JointExecute(START, events) == j
  }

  // ---------------------------------------------------------------- a stopped source has a folder shut down

  /** While stopping, the first stage of a source is queued or its folder has been shut down. */
  ghost predicate FolderInv(j: Joint, source: SourceId) {
    source in j.control.handlers ==>
      && source in j.folders
      && (j.control.stopping ==>
            Work(source, SplitterDone) in j.control.queue || FolderSync.Shutdown in j.folders[source])
  }

  ghost predicate JointInv(j: Joint) {
    Inv(j.control) && forall source :: FolderInv(j, source)
  }

  /** No step but the run of the first stage takes that stage out of the queue. */
  lemma StageStays(s: State, e: Event, source: SourceId)
    requires Allowed(s, e) && !ShutsDown(s, e, source) && source in Step(s, e).handlers
    ensures e.StopSources? ==> Work(source, SplitterDone) in Step(s, e).queue
    ensures Work(source, SplitterDone) in s.queue ==> Work(source, SplitterDone) in Step(s, e).queue
    ensures Step(s, e).stopping ==> s.stopping || e.StopSources?
    ensures source in s.handlers || e.Start?
  {
    hide LocalInv;
    var c, t := Work(source, SplitterDone), Step(s, e);
    match e {
      case StopSources(order) =>
        StagesOfOrder(order, source);
        assert t.queue == s.queue + FirstStages(order);
      case Run =>
        if s.queue != [] {
          assert s.queue == [s.queue[0]] + s.queue[1..];
          assert s.queue[1..] <= t.queue;
        }
      case Start(_) =>
      case Stream(_, _, _) => assert s.queue <= t.queue;
      case Stop(_) => assert s.queue <= t.queue;
      case Bus(_, _) => assert s.queue <= t.queue;
    }
  }

  lemma {:induction false} StagesOfOrder(order: seq<SourceId>, source: SourceId)
    ensures Work(source, SplitterDone) in FirstStages(order) <==> source in order
  {
    if order != [] {
      StagesOfOrder(order[1..], source);
      assert order == [order[0]] + order[1..];
    }
  }

  lemma JointStepKeeps(j: Joint, e: JointEvent)
    requires JointInv(j) && (e.System? ==> Allowed(j.control, e.event))
    ensures JointInv(JointStep(j, e))
  {
    hide Inv, Step, Allowed;
    var t := JointStep(j, e);
    if e.System? { InvStep(j.control, e.event); }
    forall source
      ensures FolderInv(t, source)
    {
      assert FolderInv(j, source);
      if e.System? && source in t.control.handlers {
        if ShutsDown(j.control, e.event, source) {
          assert FolderSync.Shutdown in t.folders[source];
        } else {
          StageStays(j.control, e.event, source);
          StartIsQuiet(j.control, e.event);
        }
      }
    }
  }

  lemma StartIsQuiet(s: State, e: Event)
    requires Allowed(s, e)
    ensures e.Start? ==> !Step(s, e).stopping
  {}

  lemma {:induction false} JointExecuteKeeps(j: Joint, events: seq<JointEvent>)
    requires JointInv(j) && JointRun(j, events)
    ensures JointInv(JointExecute(j, events))
    decreases |events|
  {
    hide JointInv, JointStep, Allowed;
    if events != [] {
      JointStepKeeps(j, events[0]);
      JointExecuteKeeps(JointStep(j, events[0]), events[1..]);
    }
  }

  // ---------------------------------------------------------------- the assertion of removeSource

  /** When a source with a synchronised folder is about to be removed, its folder has been shut down
      and has answered; the assertion that the folder is not active holds exactly when no delete batch
      is unanswered and the synchronisation has been ended by a failed response or by a response or
      timer after that shutdown. */
  lemma FolderAtRemoval(j: Joint, source: SourceId, path: string)
    requires JointReachable(j)
    requires j.control.queue != [] && j.control.queue[0] == Work(source, StreamerDone)
    ensures source in j.control.handlers && source in j.folders
    ensures var events := j.folders[source];
            var s := FolderSync.After(path, events);
            && FolderSync.Shutdown in events && s.answered > 0
            && (!FolderSync.Active(s) <==>
                  s.batches == 0 && exists i :: 0 <= i < |events| && FolderSync.EndsAt(path, events, i))
  {
    var events :| JointRun(START, events) && JointExecute(START, events) == j;
    assert JointInv(START) by { StartInv(); }
    JointExecuteKeeps(START, events);
    assert FolderInv(j, source);
    OnlyLastStage(j.control, source);
    FolderSync.ActiveExactly(path, j.folders[source]);
  }

  lemma StartInv()
    ensures JointInv(START)
  {
    assert Inv(INITIAL);
  }

  lemma OnlyLastStage(s: State, source: SourceId)
    requires Inv(s) && s.queue != [] && s.queue[0] == Work(source, StreamerDone)
    ensures source in s.handlers && s.stopping && Work(source, SplitterDone) !in s.queue
  {
    LastStageRuns(s, source);
    var rest := Proj(s.queue[1..], source);
    ProjHead(s, source);
    assert LocalInv(Lookup(s.handlers, source), Proj(s.queue, source), s.stopping);
    CountsTail(StreamerDone, rest);
    StageFree(rest, SplitterDone);
    ProjMember(s.queue, source, SplitterDone);
  }

  /** The assertion does fail: a source stopped right after its start is removed while the first list
      request of its folder is unanswered. */
  lemma FolderActiveAtRemoval(source: SourceId, path: string)
    ensures exists j :: JointReachable(j) && j.control.queue != [] && j.control.queue[0] == Work(source, StreamerDone)
                     && source in j.folders && FolderSync.Active(FolderSync.After(path, j.folders[source]))
  {
    var j1 := Joint(One(source, [], Handler(None, false)), map[source := []]);
    var j2 := Stopping(source, SplitterDone, []);
    var j3 := Stopping(source, FolderDone, [FolderSync.Shutdown]);
    var j4 := Stopping(source, StreamerDone, [FolderSync.Shutdown]);
    StoppedAtOnce(source);
    hide JointStep, Allowed;
    JointFirst(j3, System(Run), []);
    JointFirst(j2, System(Run), [System(Run)]);
    JointFirst(j1, System(StopSources([source])), [System(Run), System(Run)]);
    var rest := [System(StopSources([source])), System(Run), System(Run)];
    assert [System(StopSources([source]))] + [System(Run), System(Run)] == rest;
    assert [System(Run)] + [] == [System(Run)] && [System(Run)] + [System(Run)] == [System(Run), System(Run)];
    JointFirst(START, System(Start(source)), rest);
    assert JointReachable(j4);
    FolderSync.ShutdownLeavesItActive(path);
  }

  /** One source, stopping, with only the stage `t` queued. */
  function Stopping(source: SourceId, t: Task, events: seq<FolderEvent>): Joint {
    Joint(State([Work(source, t)], map[source := Handler(None, false)], true, {source}, [], 1, 0),
          map[source := events])
  }

  lemma JointFirst(j: Joint, e: JointEvent, rest: seq<JointEvent>)
    requires e.System? ==> Allowed(j.control, e.event)
    requires JointRun(JointStep(j, e), rest)
    ensures JointRun(j, [e] + rest) && JointExecute(j, [e] + rest) == JointExecute(JointStep(j, e), rest)
  {
    assert ([e] + rest)[1..] == rest;
  }

  lemma StoppedAtOnce(source: SourceId)
    ensures var j1 := Joint(One(source, [], Handler(None, false)), map[source := []]);
            && Allowed(START.control, Start(source)) && JointStep(START, System(Start(source))) == j1
            && Allowed(j1.control, StopSources([source]))
            && JointStep(j1, System(StopSources([source]))) == Stopping(source, SplitterDone, [])
    ensures JointStep(Stopping(source, SplitterDone, []), System(Run))
         == Stopping(source, FolderDone, [FolderSync.Shutdown])
    ensures JointStep(Stopping(source, FolderDone, [FolderSync.Shutdown]), System(Run))
         == Stopping(source, StreamerDone, [FolderSync.Shutdown])
  {
    StartedAndStopped(source);
    StageRuns(source, SplitterDone, FolderDone, []);
    StageRuns(source, FolderDone, StreamerDone, [FolderSync.Shutdown]);
    assert [] + [FolderSync.Shutdown] == [FolderSync.Shutdown] == [FolderSync.Shutdown] + [];
  }

  lemma StartedAndStopped(source: SourceId)
    ensures var j1 := Joint(One(source, [], Handler(None, false)), map[source := []]);
            && Allowed(START.control, Start(source)) && JointStep(START, System(Start(source))) == j1
            && Allowed(j1.control, StopSources([source]))
            && JointStep(j1, System(StopSources([source]))) == Stopping(source, SplitterDone, [])
  {
    var j1 := Joint(One(source, [], Handler(None, false)), map[source := []]);
    assert FirstStages([source]) == [Work(source, SplitterDone)];
    assert FoldersAfter(START, Start(source)) == map[source := []];
    assert FoldersAfter(j1, StopSources([source])) == map[source := []];
  }

  lemma StageRuns(source: SourceId, t: Task, next: Task, events: seq<FolderEvent>)
    requires (t == SplitterDone && next == FolderDone) || (t == FolderDone && next == StreamerDone)
    ensures JointStep(Stopping(source, t, events), System(Run))
         == Stopping(source, next, events + (if t == SplitterDone then [FolderSync.Shutdown] else []))
  {
    var h := Handler(None, false);
    var s := Stopping(source, t, events).control;
    assert RunTask(h, t) == Effect(h, [next]);
    assert Tag(source, [next]) == [Work(source, next)];
    assert s.queue[1..] == [];
    hide RunTask, Tag;
    assert Step(s, Run) == Stopping(source, next, events).control;
    hide Step;
    var after := FoldersAfter(Stopping(source, t, events), Run);
    assert after.Keys == {source};
    assert after[source] == events + (if t == SplitterDone then [FolderSync.Shutdown] else []);
  }
}
