/**
 The runs of ServerWorld seen from their events alone: who watches and who records follows from
 the callbacks, what a session is told follows from what happens while it lives, and ClientReady,
 a retry, a disconnection and a reconnection have the effects that the devices rely on.
 */
module ServerRuns {

  import opened Options
  import opened ServerModel
  import opened ServerWorld

  // ---------------------------------------------------------------- the table of paths is its history

  /** The paths whose first player has been found in the configuration and whose last one has not left. */
  function Watchers(events: seq<Event>): set<Path> {
    if events == [] then {}
    else
      var before := Watchers(events[..|events| - 1]);
      match events[|events| - 1]
      case FirstPlayer(path, found) => if found.Some? then before + {path} else before
      case LastPlayer(path) => before - {path}
      case _ => before
  }

  /** The paths whose recorder has been confirmed and has not left. */
  function Recorders(events: seq<Event>): set<Path> {
    if events == [] then {}
    else
      var before := Recorders(events[..|events| - 1]);
      match events[|events| - 1]
      case RecorderOn(path, _, confirmed) => if confirmed then before + {path} else before
      case RecorderOff(path) => before - {path}
      case _ => before
  }

  ghost predicate IsTable(paths: map<Path, PathInfo>, watchers: set<Path>, recorders: set<Path>) {
    && paths.Keys == watchers + recorders
    && forall p :: p in paths ==>
         (paths[p].hasPlayers <==> p in watchers) && (paths[p].hasRecorder <==> p in recorders)
  }

  /** After every run the table holds exactly the paths that are watched or recorded, each flagged as its
      callbacks say, in whatever order players and recorders came and went. */
  lemma {:induction false} TableIsHistory(site: Site, events: seq<Event>)
    requires AllowedRun(INITIAL, site, events)
    ensures IsTable(Execute(INITIAL, site, events).paths, Watchers(events), Recorders(events))
  {
    if events != [] {
      var before, e := events[..|events| - 1], events[|events| - 1];
      assert events == before + [e];
      LastStep(site, before, e);
      TableIsHistory(site, before);
      TableStep(Execute(INITIAL, site, before), site, before, e);
    }
  }

  lemma LastStep(site: Site, before: seq<Event>, e: Event)
    requires AllowedRun(INITIAL, site, before + [e])
    ensures var w := Execute(INITIAL, site, before);
            && AllowedRun(INITIAL, site, before) && Reachable(w, site) && Allowed(w, site, e)
            && Execute(INITIAL, site, before + [e]) == Step(w, site, e)
  {
    hide Allowed, Step;
    RunSplit(INITIAL, site, before, [e]);
    PrefixIsAllowed(INITIAL, site, before, [e]);
    assert [e][1..] == [];
  }

  lemma {:induction false} PrefixIsAllowed(w: World, site: Site, a: seq<Event>, b: seq<Event>)
    requires AllowedRun(w, site, a + b)
    ensures AllowedRun(w, site, a)
    decreases |a|
  {
    hide Allowed, Step;
    if a != [] {
      assert (a + b)[1..] == a[1..] + b;
      PrefixIsAllowed(Step(w, site, a[0]), site, a[1..], b);
    }
  }

  lemma TableStep(w: World, site: Site, before: seq<Event>, e: Event)
    requires IsTable(w.paths, Watchers(before), Recorders(before))
    ensures IsTable(Step(w, site, e).paths, Watchers(before + [e]), Recorders(before + [e]))
  {
    assert (before + [e])[..|before|] == before;
    if e.FirstPlayer? || e.LastPlayer? {
      TableAfterPlayer(w, site, e, Watchers(before), Recorders(before));
    } else if e.RecorderOn? || e.RecorderOff? {
      TableAfterRecorder(w, site, e, Watchers(before), Recorders(before));
    } else {
      SessionStepsKeepWanted(w, site, e);
    }
  }

  lemma TableAfterPlayer(w: World, site: Site, e: Event, watchers: set<Path>, recorders: set<Path>)
    requires IsTable(w.paths, watchers, recorders) && (e.FirstPlayer? || e.LastPlayer?)
    ensures IsTable(Step(w, site, e).paths,
                    if e.LastPlayer? then watchers - {e.path}
                    else if e.found.Some? then watchers + {e.path} else watchers,
                    recorders)
  {
    hide ExtractSourceId, RequestFromServer, StopFromServer;
    if e.FirstPlayer? && e.found.Some? {
      assert Step(w, site, e).paths.Keys == w.paths.Keys + {e.path};
    }
  }

  lemma TableAfterRecorder(w: World, site: Site, e: Event, watchers: set<Path>, recorders: set<Path>)
    requires IsTable(w.paths, watchers, recorders) && (e.RecorderOn? || e.RecorderOff?)
    ensures IsTable(Step(w, site, e).paths, watchers,
                    if e.RecorderOff? then recorders - {e.path}
                    else if e.confirmed then recorders + {e.path} else recorders)
  {
    hide ExtractSourceId;
    if e.RecorderOn? && e.confirmed {
      assert Step(w, site, e).paths.Keys == w.paths.Keys + {e.path};
    }
  }

  /** `source` of device `d` is watched, as far as the callbacks tell. */
  predicate IsWatched(site: Site, events: seq<Event>, d: DeviceId, source: SourceId) {
    var path := site.pathOf(source);
    path in Watchers(events) && ExtractSourceId(path) == source && site.deviceOf(source) == d
  }

  /** What a device should stream follows from the players alone. */
  lemma WantedIsHistory(site: Site, events: seq<Event>, d: DeviceId, source: SourceId)
    requires AllowedRun(INITIAL, site, events)
    ensures var w := Execute(INITIAL, site, events);
            && (Watched(w, site, d, source) <==> IsWatched(site, events, d, source))
            && (source in ContextOf(w.control, d).wanted <==> IsWatched(site, events, d, source))
            && (IsWatched(site, events, d, source) ==>
                  ContextOf(w.control, d).wanted[source] == RecordUrl(site, source))
  {
    var w := Execute(INITIAL, site, events);
    TableIsHistory(site, events);
    ReachableInv(w, site);
    assert source in ContextOf(w.control, d).wanted <==> Watched(w, site, d, source);
  }

  // ---------------------------------------------------------------- what a session is told

  /** What an event tells a session of `w`. */
  function Told(w: World, site: Site, e: Event, id: SessionId): seq<Message>
    requires id in w.control.sessions
  {
    var s := w.control.sessions[id];
    match e
    case FirstPlayer(path, found) =>
      var source := ExtractSourceId(path);
      if s.accepted && found == Some(s.device) then [RequestStream(source, RecordUrl(site, source))] else []
    case LastPlayer(path) =>
      if s.accepted && path in w.paths && w.paths[path].device == s.device
      then [StopStream(ExtractSourceId(path))] else []
    case Retry(who) =>
      if who == id && s.timer.Some? && Watched(w, site, s.device, s.timer.value)
      then [RequestStream(s.timer.value, RecordUrl(site, s.timer.value))] else []
    case Posted =>
      var c := w.control;
      if c.posted != [] && c.posted[0].session == id && Watched(w, site, s.device, c.posted[0].source)
      then [RequestStream(c.posted[0].source, RecordUrl(site, c.posted[0].source))] else []
    case _ => []
  }

  /** The retry timer of a session after an event: armed by a failure report about a watched source of its
      device, disarmed by firing. */
  function TimerAfter(w: World, site: Site, e: Event, id: SessionId): Option<SourceId>
    requires id in w.control.sessions
  {
    var s := w.control.sessions[id];
    match e
    case Status(who, source, success) =>
      if who == id && s.accepted && !success && Watched(w, site, s.device, source) then Some(source) else s.timer
    case Retry(who) => if who == id then None else s.timer
    case _ => s.timer
  }

  predicate Replaces(e: Event, id: SessionId) {
    (e.Connect? && e.id == id) || (e.Disconnect? && e.id == id)
  }

  /** `t` is `s` after `e`. */
  predicate Affected(w: World, site: Site, e: Event, id: SessionId, t: Session)
    requires id in w.control.sessions
  {
    var s := w.control.sessions[id];
    && t.sent == s.sent + Told(w, site, e, id) && t.timer == TimerAfter(w, site, e, id)
    && t.device == s.device && t.accepted == s.accepted
    && (t.ready <==> s.ready || (e.Ready? && e.id == id && s.accepted))
  }

  /** In every reachable state each event does to a session exactly that. */
  lemma SessionEffects(w: World, site: Site, e: Event, id: SessionId)
    requires Reachable(w, site) && Allowed(w, site, e) && id in w.control.sessions && !Replaces(e, id)
    ensures id in Step(w, site, e).control.sessions
    ensures Affected(w, site, e, id, Step(w, site, e).control.sessions[id])
  {
    ReachableInv(w, site);
    if e.FirstPlayer? || e.LastPlayer? || e.RecorderOn? || e.RecorderOff? {
      PlayerEffects(w, site, e, id);
    } else if e.Retry? || e.Posted? {
      RequestEffects(w, site, e, id);
    } else {
      ControlEffects(w, site, e, id);
    }
  }

  lemma PlayerEffects(w: World, site: Site, e: Event, id: SessionId)
    requires WorldInv(w, site) && Allowed(w, site, e) && id in w.control.sessions
    requires e.FirstPlayer? || e.LastPlayer? || e.RecorderOn? || e.RecorderOff?
    ensures id in Step(w, site, e).control.sessions
    ensures Affected(w, site, e, id, Step(w, site, e).control.sessions[id])
  {
    var c := w.control;
    assert BindingInv(c);
    hide ControlInv, WantedInv, BindingInv, ExtractSourceId, RecordUrl, RequestFromServer, StopFromServer;
    match e {
      case FirstPlayer(path, found) =>
        FirstPlayerKeeps(w, site, path, found);
        var source := ExtractSourceId(path);
        if found.Some? { RequestTells(c, found.value, source, RecordUrl(site, source), id); }
      case LastPlayer(path) =>
        if path in w.paths { StopTells(c, w.paths[path].device, w.paths[path].source, id); }
      case _ =>
    }
  }

  lemma RequestEffects(w: World, site: Site, e: Event, id: SessionId)
    requires WorldInv(w, site) && id in w.control.sessions && (e.Retry? || e.Posted?)
    ensures id in Step(w, site, e).control.sessions
    ensures Affected(w, site, e, id, Step(w, site, e).control.sessions[id])
  {
    var c := w.control;
    hide WorldInv, RecordUrl, Watched, SessionRequest;
    if e.Retry? && e.id in c.sessions && c.sessions[e.id].timer.Some? {
      var s := c.sessions[e.id];
      RestoreTells(c.(sessions := c.sessions[e.id := s.(timer := None)]), e.id, s.timer.value, id);
      WantedOrNot(w, site, c.sessions[id].device, s.timer.value);
    }
    if e.Posted? && c.posted != [] {
      RestoreTells(c.(posted := c.posted[1..]), c.posted[0].session, c.posted[0].source, id);
      WantedOrNot(w, site, c.sessions[id].device, c.posted[0].source);
    }
  }

  lemma ControlEffects(w: World, site: Site, e: Event, id: SessionId)
    requires WorldInv(w, site) && id in w.control.sessions && !Replaces(e, id)
    requires e.Connect? || e.Disconnect? || e.Ready? || e.Status?
    ensures id in Step(w, site, e).control.sessions
    ensures Affected(w, site, e, id, Step(w, site, e).control.sessions[id])
  {
    hide WorldInv, Watched, Others, Restores;
    if e.Status? { WantedOrNot(w, site, w.control.sessions[id].device, e.source); }
  }

  lemma WantedOrNot(w: World, site: Site, d: DeviceId, source: SourceId)
    requires WorldInv(w, site)
    ensures source in ContextOf(w.control, d).wanted <==> Watched(w, site, d, source)
    ensures source in ContextOf(w.control, d).wanted ==>
              ContextOf(w.control, d).wanted[source] == RecordUrl(site, source)
  {
    hide ControlInv, PathsInv;
  }

  lemma RestoreTells(c: Control, who: SessionId, source: SourceId, id: SessionId)
    requires id in c.sessions
    ensures id in SessionRequest(c, who, source).sessions
    ensures var s := c.sessions[id];
            var wanted := ContextOf(c, s.device).wanted;
            SessionRequest(c, who, source).sessions[id] ==
              if who == id && source in wanted then s.(sent := s.sent + [RequestStream(source, wanted[source])]) else s
  {}

  lemma RequestTells(c: Control, d: DeviceId, source: SourceId, url: Url, id: SessionId)
    requires BindingInv(c) && !AlreadyActive(c, d, source) && id in c.sessions
    ensures id in RequestFromServer(c, d, source, url).sessions
    ensures RequestFromServer(c, d, source, url).sessions[id] ==
              if c.sessions[id].accepted && c.sessions[id].device == d
              then c.sessions[id].(sent := c.sessions[id].sent + [RequestStream(source, url)])
              else c.sessions[id]
  {}

  lemma StopTells(c: Control, d: DeviceId, source: SourceId, id: SessionId)
    requires BindingInv(c) && id in c.sessions
    ensures id in StopFromServer(c, d, source).sessions
    ensures StopFromServer(c, d, source).sessions[id] ==
              if c.sessions[id].accepted && c.sessions[id].device == d
              then c.sessions[id].(sent := c.sessions[id].sent + [StopStream(source)])
              else c.sessions[id]
  {}

  /** All that a session is told while `events` happen to it. */
  function Log(w: World, site: Site, events: seq<Event>, id: SessionId): seq<Message>
    decreases |events|
  {
    if events == [] || id !in w.control.sessions then []
    else Told(w, site, events[0], id) + Log(Step(w, site, events[0]), site, events[1..], id)
  }

  /** From its handshake on, the log of a session is exactly what the events of its life have told it. */
  lemma LogIsHistory(site: Site, before: seq<Event>, connect: Event, rest: seq<Event>)
    requires connect.Connect? && AllowedRun(INITIAL, site, before + [connect] + rest)
    requires forall e :: e in rest ==> !Replaces(e, connect.id)
    ensures var w := Execute(INITIAL, site, before + [connect]);
            var t := Execute(INITIAL, site, before + [connect] + rest);
            && connect.id in t.control.sessions
            && t.control.sessions[connect.id].sent == Log(w, site, rest, connect.id)
  {
    RunThrough(site, before, connect, rest);
    PrefixIsAllowed(INITIAL, site, before + [connect], rest);
    LastStep(site, before, connect);
    var w := Execute(INITIAL, site, before + [connect]);
    assert w.control.sessions[connect.id].sent == [];
    LogGrows(w, site, rest, connect.id);
  }

  lemma {:induction false} LogGrows(w: World, site: Site, events: seq<Event>, id: SessionId)
    requires Reachable(w, site) && AllowedRun(w, site, events) && id in w.control.sessions
    requires forall e :: e in events ==> !Replaces(e, id)
    ensures var t := Execute(w, site, events);
            && id in t.control.sessions
            && t.control.sessions[id].sent == w.control.sessions[id].sent + Log(w, site, events, id)
    decreases |events|
  {
    if events != [] {
      var e := events[0];
      assert e in events && forall x :: x in events[1..] ==> x in events;
      SessionEffects(w, site, e, id);
      StepIsReachable(w, site, e);
      hide Step, Allowed, Told, Reachable;
      Rejoin(w.control.sessions[id].sent, Told(w, site, e, id), Log(Step(w, site, e), site, events[1..], id));
      LogGrows(Step(w, site, e), site, events[1..], id);
    }
  }

  lemma StepIsReachable(w: World, site: Site, e: Event)
    requires Reachable(w, site) && Allowed(w, site, e)
    ensures Reachable(Step(w, site, e), site)
  {
    hide Allowed, Step;
    var events :| AllowedRun(INITIAL, site, events) && Execute(INITIAL, site, events) == w;
    RunJoin(INITIAL, site, events, [e]);
    assert [e][1..] == [];
    assert AllowedRun(INITIAL, site, events + [e]);
  }

  lemma {:induction false} RunJoin(w: World, site: Site, a: seq<Event>, b: seq<Event>)
    requires AllowedRun(w, site, a)
    requires b != [] && |b| == 1 && Allowed(Execute(w, site, a), site, b[0])
    ensures AllowedRun(w, site, a + b) && Execute(w, site, a + b) == Step(Execute(w, site, a), site, b[0])
    decreases |a|
  {
    hide Allowed, Step;
    if a == [] {
      assert a + b == b && b[1..] == [];
    } else {
      assert (a + b)[1..] == a[1..] + b;
      RunJoin(Step(w, site, a[0]), site, a[1..], b);
    }
  }

  // ---------------------------------------------------------------- ClientReady, retries

  lemma {:induction false} ReadyStays(w: World, site: Site, id: SessionId, events: seq<Event>)
    requires Reachable(w, site) && AllowedRun(w, site, events) && id in w.control.sessions
    requires forall e :: e in events ==> !Replaces(e, id)
    ensures var t := Execute(w, site, events);
            && Reachable(t, site) && id in t.control.sessions
            && t.control.sessions[id].device == w.control.sessions[id].device
            && (w.control.sessions[id].ready ==> t.control.sessions[id].ready)
    decreases |events|
  {
    if events != [] {
      var e := events[0];
      assert e in events && forall x :: x in events[1..] ==> x in events;
      SessionEffects(w, site, e, id);
      StepIsReachable(w, site, e);
      hide Step, Allowed, Reachable;
      ReadyStays(Step(w, site, e), site, id, events[1..]);
    }
  }

  /** In every run in which an accepted session has said ClientReady and lives on, once the posted restores
      have run, its last message about a source is the request to the record address exactly when that
      source of its device is watched, whatever has happened before and since. */
  lemma ReadyRestores(site: Site, before: seq<Event>, id: SessionId, order: seq<SourceId>, rest: seq<Event>,
                      source: SourceId)
    requires AllowedRun(INITIAL, site, before + [Ready(id, order)] + rest)
    requires forall e :: e in rest ==> !Replaces(e, id)
    requires var c := Execute(INITIAL, site, before).control;
             id in c.sessions && c.sessions[id].accepted
    ensures var d := Execute(INITIAL, site, before).control.sessions[id].device;
            var events := before + [Ready(id, order)] + rest;
            var s := DrainPosted(Execute(INITIAL, site, events).control).sessions;
            && id in s
            && (LastAbout(s[id].sent, source) == Some(RequestStream(source, RecordUrl(site, source)))
                <==> IsWatched(site, events, d, source))
  {
    var events := before + [Ready(id, order)] + rest;
    RunThrough(site, before, Ready(id, order), rest);
    PrefixIsAllowed(INITIAL, site, before + [Ready(id, order)], rest);
    LastStep(site, before, Ready(id, order));
    var w := Execute(INITIAL, site, before);
    SessionEffects(w, site, Ready(id, order), id);
    StepIsReachable(w, site, Ready(id, order));
    ReadyStays(Step(w, site, Ready(id, order)), site, id, rest);
    var t := Execute(INITIAL, site, events);
    DeviceFollowsPlayers(t, site, id, source);
    DrainPostedKeeps(t.control) by { ReachableInv(t, site); }
    WantedIsHistory(site, events, w.control.sessions[id].device, source);
  }

  predicate Retimes(e: Event, id: SessionId) {
    Replaces(e, id) || (e.Retry? && e.id == id) || (e.Status? && e.id == id && !e.success)
  }

  lemma {:induction false} TimerStays(w: World, site: Site, id: SessionId, events: seq<Event>)
    requires Reachable(w, site) && AllowedRun(w, site, events) && id in w.control.sessions
    requires forall e :: e in events ==> !Retimes(e, id)
    ensures var t := Execute(w, site, events);
            && Reachable(t, site) && id in t.control.sessions
            && t.control.sessions[id].device == w.control.sessions[id].device
            && t.control.sessions[id].timer == w.control.sessions[id].timer
    decreases |events|
  {
    if events != [] {
      var e := events[0];
      assert e in events && forall x :: x in events[1..] ==> x in events;
      SessionEffects(w, site, e, id);
      StepIsReachable(w, site, e);
      hide Step, Allowed, Reachable;
      TimerStays(Step(w, site, e), site, id, events[1..]);
    }
  }

  /** A failure report about a watched source makes the session ask for it once more when its timer fires,
      unless the last player has left by then, or another failure has taken the timer. */
  lemma RetryAsksAgain(site: Site, before: seq<Event>, id: SessionId, source: SourceId, rest: seq<Event>)
    requires AllowedRun(INITIAL, site, before + [Status(id, source, false)] + rest + [Retry(id)])
    requires forall e :: e in rest ==> !Retimes(e, id)
    requires var c := Execute(INITIAL, site, before).control;
             id in c.sessions && c.sessions[id].accepted && IsWatched(site, before, c.sessions[id].device, source)
    ensures var d := Execute(INITIAL, site, before).control.sessions[id].device;
            var waiting := before + [Status(id, source, false)] + rest;
            var s, t := Execute(INITIAL, site, waiting).control.sessions,
                        Execute(INITIAL, site, waiting + [Retry(id)]).control.sessions;
            && id in s && id in t && t[id].timer == None
            && t[id].sent == s[id].sent + (if IsWatched(site, waiting, d, source)
                                           then [RequestStream(source, RecordUrl(site, source))] else [])
  {
    var report := Status(id, source, false);
    var waiting := before + [report] + rest;
    LastStep(site, waiting, Retry(id));
    RunThrough(site, before, report, rest);
    PrefixIsAllowed(INITIAL, site, before + [report], rest);
    LastStep(site, before, report);
    var w := Execute(INITIAL, site, before);
    WantedIsHistory(site, before, w.control.sessions[id].device, source);
    SessionEffects(w, site, report, id);
    StepIsReachable(w, site, report);
    TimerStays(Step(w, site, report), site, id, rest);
    WantedIsHistory(site, waiting, w.control.sessions[id].device, source);
    SessionEffects(Execute(INITIAL, site, waiting), site, Retry(id), id);
  }

  // ---------------------------------------------------------------- disconnection

  lemma {:induction false} GoneStays(w: World, site: Site, id: SessionId, events: seq<Event>)
    requires id !in w.control.sessions
    requires forall e :: e in events ==> !(e.Connect? && e.id == id)
    ensures id !in Execute(w, site, events).control.sessions
    decreases |events|
  {
    if events != [] {
      assert events[0] in events && forall x :: x in events[1..] ==> x in events;
      OnlyConnectAdds(w, site, id, events[0]);
      hide Step;
      GoneStays(Step(w, site, events[0]), site, id, events[1..]);
    }
  }

  lemma OnlyConnectAdds(w: World, site: Site, id: SessionId, e: Event)
    requires id !in w.control.sessions && !(e.Connect? && e.id == id)
    ensures id !in Step(w, site, e).control.sessions
  {}

  /** A disconnected session leaves nothing behind: no entry, no posted restore, no device that it is in
      charge of. */
  lemma DisconnectReleases(site: Site, before: seq<Event>, id: SessionId, rest: seq<Event>)
    requires AllowedRun(INITIAL, site, before + [Disconnect(id)] + rest)
    requires forall e :: e in rest ==> !(e.Connect? && e.id == id)
    ensures var c := Execute(INITIAL, site, before + [Disconnect(id)] + rest).control;
            && id !in c.sessions
            && (forall p :: p in c.posted ==> p.session != id)
            && (forall d :: d in c.contexts ==> c.contexts[d].active != Some(id))
  {
    RunThrough(site, before, Disconnect(id), rest);
    var w := Execute(INITIAL, site, before);
    GoneStays(Step(w, site, Disconnect(id)), site, id, rest);
    ReachableInv(Execute(INITIAL, site, before + [Disconnect(id)] + rest), site);
  }

  /** The device of a bound session that has disconnected can connect again at once: the new session is
      accepted and in charge, the wanted streams are still there, and the other sessions and their posted
      restores are as they were. */
  lemma ReconnectIsAccepted(site: Site, before: seq<Event>, id: SessionId, again: SessionId)
    requires var c := Execute(INITIAL, site, before).control;
             id in c.sessions && c.sessions[id].accepted
    requires var c := Execute(INITIAL, site, before).control;
             var connect := Connect(again, c.sessions[id].device, true, true);
             AllowedRun(INITIAL, site, before + [Disconnect(id)] + [connect])
    ensures var c := Execute(INITIAL, site, before).control;
            var d := c.sessions[id].device;
            var t := Execute(INITIAL, site, before + [Disconnect(id)] + [Connect(again, d, true, true)]).control;
            && t.sessions == (c.sessions - {id})[again := Session(d, true, false, [], None)]
            && ContextOf(t, d) == Context(Some(again), ContextOf(c, d).wanted)
            && (forall x :: x != d ==> ContextOf(t, x) == ContextOf(c, x))
            && t.posted == Others(c.posted, id)
  {
    var w := Execute(INITIAL, site, before);
    var connect := Connect(again, w.control.sessions[id].device, true, true);
    RunThrough(site, before, Disconnect(id), [connect]);
    LastStep(site, before + [Disconnect(id)], connect);
    assert before + [Disconnect(id)] + [] == before + [Disconnect(id)];
    LastStep(site, before, Disconnect(id));
    ReachableInv(w, site);
    assert BindingInv(w.control);
  }

  lemma Rejoin<T>(p: seq<T>, q: seq<T>, r: seq<T>)
    ensures p + (q + r) == p + q + r
  {}

  /** The restores of the others keep their order and number. */
  lemma {:induction false} OthersConcat(a: seq<Restore>, b: seq<Restore>, id: SessionId)
    ensures Others(a + b, id) == Others(a, id) + Others(b, id)
  {
    if a == [] {
      assert a + b == b;
    } else {
      assert (a + b)[1..] == a[1..] + b;
      OthersHead(a, id);
      OthersHead(a + b, id);
      hide Others;
      OthersConcat(a[1..], b, id);
      Rejoin(if a[0].session == id then [] else [a[0]], Others(a[1..], id), Others(b, id));
    }
  }

  lemma OthersHead(a: seq<Restore>, id: SessionId)
    requires a != []
    ensures Others(a, id) == (if a[0].session == id then [] else [a[0]]) + Others(a[1..], id)
  {}

  lemma {:induction false} OthersIsAll(a: seq<Restore>, id: SessionId)
    ensures (forall p :: p in a ==> p.session != id) ==> Others(a, id) == a
    ensures (forall p :: p in a ==> p.session == id) ==> Others(a, id) == []
  {
    if a != [] {
      OthersIsAll(a[1..], id);
      assert a == [a[0]] + a[1..];
    }
  }

  /** One restore per stream, in the order in which they were met. */
  lemma {:induction false} RestoresInOrder(id: SessionId, order: seq<SourceId>)
    ensures |Restores(id, order)| == |order|
    ensures forall i :: 0 <= i < |order| ==> Restores(id, order)[i] == Restore(id, order[i])
  {
    if order != [] {
      RestoresInOrder(id, order[1..]);
    }
  }

  // ---------------------------------------------------------------- record addresses

  lemma Between(a: string, b: string, c: string)
    ensures |a + b + c| == |a| + |b| + |c| && (a + b + c)[|a|..|a| + |b|] == b
  {}

  /** The record address determines its source; it lies on the restream server, asks for recording, and the
      path on which the device will record is that of the source. */
  lemma RecordUrlLeadsBack(site: Site, base: Url, source: SourceId, other: SourceId)
    requires site.serverUrl == base + "/" && '/' !in source
    ensures RecordUrl(site, source) == RecordUrl(site, other) ==> source == other
    ensures RecordUrl(site, source) == base + ("/" + source) + "?record"
    ensures ExtractSourceId("/" + source) == source
  {
    hide ExtractSourceId;
    if RecordUrl(site, source) == RecordUrl(site, other) {
      Between(site.serverUrl, source, "?record");
      Between(site.serverUrl, other, "?record");
      assert |source| == |other|;
    }
    Rejoin(base, "/", source);
    SourceIdOfPath("", source, "");
    assert "" + ("/" + source) == "/" + source;
  }
}
