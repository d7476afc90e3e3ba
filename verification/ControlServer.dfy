/**
 The classes of Server/ControlServer: SessionContext, ServerSession and Server, with the
 posted restores of the io_service. The object graph refines the control part of ServerModel.
 */
module ControlServers {

  import opened Options
  import opened ServerModel

  class IoService {
    var posted: seq<Restore>

    constructor ()
      ensures posted == []
    {
      posted := [];
    }
  }

  class SessionContext {
    ghost const device: DeviceId  // its key in the table of contexts
    var activeSession: ServerSession?
    var activeSources: map<SourceId, Url>

    constructor (ghost device: DeviceId)
      ensures this.device == device && activeSession == null && activeSources == map[]
    {
      this.device := device;
      activeSession, activeSources := null, map[];
    }

    method Authenticated(session: ServerSession)
      requires activeSession == null
      modifies this`activeSession
      ensures activeSession == session
    {
      activeSession := session;
    }

    method Destroyed()
      modifies this`activeSession
      ensures activeSession == null
    {
      activeSession := null;
    }

    /** An already active source keeps its destination. */
    method StreamRequested(source: SourceId, destination: Url)
      modifies this`activeSources
      ensures activeSources == map[source := destination] + old(activeSources)
    {
      if source !in activeSources {
        activeSources := activeSources[source := destination];
      }
    }

    method StopStreamRequested(source: SourceId)
      modifies this`activeSources
      ensures activeSources == old(activeSources) - {source}
    {
      activeSources := activeSources - {source};
    }

    method ShouldStream(source: SourceId) returns (destination: Option<Url>)
      ensures destination == if source in activeSources then Some(activeSources[source]) else None
    {
      destination := if source in activeSources then Some(activeSources[source]) else None;
    }
  }

  class ServerSession {
    const id: SessionId
    const io: IoService
    var deviceId: DeviceId
    var context: SessionContext?
    var timer: Option<SourceId>

    // bookkeeping of the model: see ServerModel.Session
    ghost var ready: bool
    ghost var sent: seq<Message>

    ghost function View(): Session
      reads this
    {
      Session(deviceId, context != null, ready, sent, timer)
    }

    constructor (id: SessionId, io: IoService)
      ensures this.id == id && this.io == io && View() == Session("", false, false, [], None)
    {
      this.id, this.io := id, io;
      deviceId, context, timer := "", null, None;
      ready, sent := false, [];
    }

    method SendMessage(m: Message)
      modifies this`sent
      ensures View() == old(View()).(sent := old(sent) + [m])
    {
      sent := sent + [m];
    }

    method RequestStream(source: SourceId)
      requires context != null
      modifies this`sent
      ensures View() == if source in context.activeSources
                        then
                          var m := Message.RequestStream(source, context.activeSources[source]);
                          old(View()).(sent := old(sent) + [m])
                        else old(View())
    {
      var destination := context.ShouldStream(source);
      if destination.Some? {
        SendMessage(Message.RequestStream(source, destination.value));
      }
    }

    method StopStream(source: SourceId)
      modifies this`sent
      ensures View() == old(View()).(sent := old(sent) + [Message.StopStream(source)])
    {
      SendMessage(Message.StopStream(source));
    }

    /** onMessage(ClientReady): one posted restore per active stream, in the order it meets them. */
    method OnClientReady() returns (ghost order: seq<SourceId>)
      modifies this`ready, io`posted
      ensures context == null ==> View() == old(View()) && io.posted == old(io.posted)
      ensures context != null ==>
                && View() == old(View()).(ready := true)
                && io.posted == old(io.posted) + Restores(id, order)
                && (forall k :: k in order <==> k in context.activeSources)
                && (forall i, j :: 0 <= i < j < |order| ==> order[i] != order[j])
    {
      order := [];
      if context == null { return; }
      ready := true;
      var left := context.activeSources.Keys;
      while left != {}
        invariant left <= context.activeSources.Keys
        invariant io.posted == old(io.posted) + Restores(id, order)
        invariant forall k :: k in order <==> k in context.activeSources && k !in left
        invariant forall i, j :: 0 <= i < j < |order| ==> order[i] != order[j]
        invariant View() == old(View()).(ready := true)
        decreases left
      {
        var k :| k in left;
        left := left - {k};
        RestoresSnoc(id, order, k);
        order := order + [k];
        io.posted := io.posted + [Restore(id, k)];
      }
    }

    /** onMessage(StreamStatus). */
    method OnStreamStatus(source: SourceId, success: bool)
      modifies this`timer
      ensures View() == if context != null && !success && source in context.activeSources
                        then old(View()).(timer := Some(source)) else old(View())
    {
      if context == null { return; }
      if !success {
        var destination := context.ShouldStream(source);
        if destination.Some? {
          timer := Some(source);
        }
      }
    }
  }

  lemma {:induction false} RestoresSnoc(id: SessionId, order: seq<SourceId>, k: SourceId)
    ensures Restores(id, order + [k]) == Restores(id, order) + [Restore(id, k)]
  {
    if order != [] {
      RestoresSnoc(id, order[1..], k);
      assert (order + [k])[1..] == order[1..] + [k];
    }
  }

  /** Two tables that differ in one entry. */
  lemma OneEntry<K, V>(before: map<K, V>, after: map<K, V>, k: K, v: V)
    requires after.Keys == before.Keys + {k} && after[k] == v
    requires forall x :: x in before && x != k ==> after[x] == before[x]
    ensures after == before[k := v]
  {}

  lemma OneLess<K, V>(before: map<K, V>, after: map<K, V>, k: K)
    requires after.Keys == before.Keys - {k}
    requires forall x :: x in after ==> after[x] == before[x]
    ensures after == before - {k}
  {}

  class Server {
    const io: IoService
    var contexts: map<DeviceId, SessionContext>
    var live: map<SessionId, ServerSession>

    /** Contexts and sessions know their keys, and point at each other only inside the tables. */
    ghost predicate Valid()
      reads this, contexts.Values, live.Values
    {
      && (forall d :: d in contexts ==>
            && contexts[d].device == d
            && (contexts[d].activeSession != null ==>
                  var s := contexts[d].activeSession;
                  s.id in live && live[s.id] == s && s.context == contexts[d]))
      && (forall k :: k in live ==>
            && live[k].id == k && live[k].io == io
            && (live[k].context != null ==>
                  var d := live[k].deviceId;
                  d in contexts && contexts[d] == live[k].context && contexts[d].activeSession == live[k]))
    }

    /** A session of the table that has a context. */
    ghost predicate Bound(s: ServerSession)
      reads this, s
    {
      s.id in live && live[s.id] == s && s.context != null
    }

    ghost function ContextView(d: DeviceId): Context
      requires d in contexts
      reads this, contexts.Values, live.Values
    {
      var s := contexts[d].activeSession;
      Context(if s == null then None else Some(s.id), contexts[d].activeSources)
    }

    ghost function Abs(): Control
      reads this, io, contexts.Values, live.Values
    {
      Control(map d | d in contexts :: ContextView(d), map k | k in live :: live[k].View(), io.posted)
    }

    constructor (io: IoService)
      requires io.posted == []
      ensures this.io == io && Valid() && Abs() == Control(map[], map[], [])
      ensures contexts == map[] && live == map[]
    {
      this.io := io;
      contexts, live := map[], map[];
    }

    /** Sessions::get. */
    method Get(d: DeviceId) returns (ctx: SessionContext)
      requires Valid()
      modifies this`contexts
      ensures Valid() && d in contexts && contexts[d] == ctx
      ensures d in old(contexts) ==> contexts == old(contexts)
      ensures d !in old(contexts) ==> fresh(ctx) && contexts == old(contexts)[d := ctx]
      ensures Abs() == WithContext(old(Abs()), d, ContextOf(old(Abs()), d))
      ensures d in Abs().contexts && Abs().contexts[d] == ContextView(d) == ContextOf(old(Abs()), d)
      ensures ctx.activeSession != null ==> Bound(ctx.activeSession)
    {
      ghost var before := Abs();
      if d !in contexts {
        ctx := new SessionContext(d);
        contexts := contexts[d := ctx];
      } else {
        ctx := contexts[d];
      }
      OneEntry(before.contexts, Abs().contexts, d, ContextOf(before, d));
    }

    /** The end of a handshake: the session exists, knows its device if a certificate came, and binds
        itself to the device when that is known and free. */
    method OnConnected(id: SessionId, device: DeviceId, ok: bool, known: bool)
      requires Valid() && id !in live
      modifies this`contexts, this`live, contexts.Values
      ensures Valid() && Abs() == Connected(old(Abs()), id, device, ok, known)
    {
      ghost var before := Abs();
      hide Valid, Abs;
      AddSession(id, device);
      ConnectedSteps(before, id, device);
      if !ok { return; }
      if !known { return; }
      Bind(id, device);
    }

    method AddSession(id: SessionId, device: DeviceId)
      requires Valid() && id !in live
      modifies this`live
      ensures Valid() && id in live && fresh(live[id]) && live == old(live)[id := live[id]]
      ensures live[id].context == null && live[id].deviceId == device
      ensures Abs() == old(Abs()).(sessions := old(Abs()).sessions[id := Session(device, false, false, [], None)])
    {
      ghost var before := Abs();
      var session := NewSession(id, device);
      live := live[id := session];
      assert Valid();
      hide Valid;
      OneEntry(before.sessions, Abs().sessions, id, session.View());
      assert Abs().contexts == before.contexts;
    }

    /** A session that knows its device and is not registered yet. */
    method NewSession(id: SessionId, device: DeviceId) returns (session: ServerSession)
      ensures fresh(session) && session.id == id && session.io == io
      ensures session.View() == Session(device, false, false, [], None)
    {
      session := new ServerSession(id, io);
      session.deviceId := device;
    }

    /** Makes a new session the active one of its device, unless there is one already. */
    method Bind(id: SessionId, device: DeviceId)
      requires Valid() && id in live && live[id].context == null && live[id].deviceId == device
      modifies this`contexts, contexts.Values, live[id]
      ensures Valid()
      ensures var before := old(Abs());
              var ctx := ContextOf(before, device);
              if ctx.active.Some? then Abs() == WithContext(before, device, ctx)
              else
                var accepted := before.sessions[id].(accepted := true);
                Abs() == WithContext(before.(sessions := before.sessions[id := accepted]),
                                     device, ctx.(active := Some(id)))
    {
      assert id in Abs().sessions && Abs().sessions[id] == live[id].View();
      var context := Get(device);
      assert id in Abs().sessions && Abs().sessions[id] == live[id].View();
      hide Valid, Abs;
      if context.activeSession != null { return; }
      AttachBoth(id, device);
      BindSteps(old(Abs()), id, device);
    }

    /** _sessionContext is set and the context told. */
    method AttachBoth(id: SessionId, device: DeviceId)
      requires Valid() && id in live && live[id].context == null && live[id].deviceId == device
      requires device in contexts && contexts[device].activeSession == null
      modifies contexts[device], live[id]
      ensures Valid()
      ensures var before := old(Abs());
              Abs() == WithContext(before.(sessions := before.sessions[id := before.sessions[id].(accepted := true)]),
                                   device, before.contexts[device].(active := Some(id)))
    {
      ghost var before := Abs();
      var session, context := live[id], contexts[device];
      session.context := context;
      context.Authenticated(session);
      assert Valid();
      hide Valid;
      OneEntry(before.contexts, Abs().contexts, device, ContextView(device));
      OneEntry(before.sessions, Abs().sessions, id, session.View());
    }

    /** The destructor, guarded by the context it is about to use. */
    method OnDestroyed(id: SessionId)
      requires Valid() && id in live
      modifies this`live, io`posted, contexts.Values
      ensures Valid() && Abs() == ServerModel.Destroyed(old(Abs()), id)
    {
      if live[id].context != null {
        ReleaseDevice(id);
      } else {
        Forget(id);
      }
    }

    /** A bound session goes, and its device is free again. */
    method ReleaseDevice(id: SessionId)
      requires Valid() && id in live && live[id].context != null
      modifies this`live, io`posted, live[id].context`activeSession
      ensures Valid() && Abs() == ServerModel.Destroyed(old(Abs()), id)
    {
      ghost var before, d := Abs(), live[id].deviceId;
      Release(id);
      assert d in before.contexts && ContextView(d) == before.contexts[d].(active := None);
      assert forall x :: x in contexts && x != d ==> ContextView(x) == before.contexts[x];
      hide Valid;
      OneEntry(before.contexts, Abs().contexts, d, before.contexts[d].(active := None));
      OneLess(before.sessions, Abs().sessions, id);
    }

    method Release(id: SessionId)
      requires Valid() && id in live && live[id].context != null
      modifies this`live, io`posted, live[id].context`activeSession
      ensures Valid() && live == old(live) - {id} && io.posted == Others(old(io.posted), id)
      ensures var d := old(live[id].deviceId);
              d in contexts && contexts[d] == old(live[id].context) && contexts[d].activeSession == null
    {
      var context := live[id].context;
      io.posted := Others(io.posted, id);
      live := live - {id};
      context.Destroyed();
      hide Others;
    }

    method Forget(id: SessionId)
      requires Valid() && id in live && live[id].context == null
      modifies this`live, io`posted
      ensures Valid() && Abs() == ServerModel.Destroyed(old(Abs()), id)
    {
      ghost var before := Abs();
      io.posted := Others(io.posted, id);
      live := live - {id};
      assert Abs().contexts == before.contexts;
      assert Abs().sessions == before.sessions - {id};
    }

    method OnClientReady(id: SessionId) returns (ghost order: seq<SourceId>)
      requires Valid() && id in live
      modifies io`posted, live.Values
      ensures Valid() && Abs() == ServerModel.ClientReady(old(Abs()), id, order)
      ensures live[id].context != null ==>
                && (forall k :: k in order <==> k in live[id].context.activeSources)
                && (forall i, j :: 0 <= i < j < |order| ==> order[i] != order[j])
    {
      ghost var before := Abs();
      order := live[id].OnClientReady();
      assert Valid();
      hide Valid;
      assert Abs().contexts == before.contexts;
      OneEntry(before.sessions, Abs().sessions, id, live[id].View());
    }

    method OnStreamStatus(id: SessionId, source: SourceId, success: bool)
      requires Valid() && id in live
      modifies live.Values
      ensures Valid() && Abs() == ServerModel.StreamStatus(old(Abs()), id, source, success)
    {
      ghost var before := Abs();
      live[id].OnStreamStatus(source, success);
      assert Abs().contexts == before.contexts;
      OneEntry(before.sessions, Abs().sessions, id, live[id].View());
    }

    /** Session::requestStream on a bound session of the table. */
    method RequestOn(session: ServerSession, source: SourceId)
      requires Valid() && Bound(session)
      modifies session`sent
      ensures Valid() && Abs() == SessionRequest(old(Abs()), session.id, source)
    {
      ghost var before := Abs();
      session.RequestStream(source);
      assert Abs().contexts == before.contexts;
      OneEntry(before.sessions, Abs().sessions, session.id, session.View());
    }

    /** The retry timer of a session fires. */
    method OnTimer(id: SessionId)
      requires Valid() && id in live && live[id].timer.Some? && live[id].context != null
      modifies live.Values
      ensures Valid() && Abs() == ServerModel.TimerFires(old(Abs()), id)
    {
      ghost var before := Abs();
      var session := live[id];
      var source := session.timer.value;
      session.timer := None;
      assert Abs().contexts == before.contexts;
      OneEntry(before.sessions, Abs().sessions, id, session.View());
      RequestOn(session, source);
    }

    /** The oldest posted restore runs. */
    method RunOne()
      requires Valid() && io.posted != []
      requires io.posted[0].session in live && live[io.posted[0].session].context != null
      modifies io`posted, live.Values
      ensures Valid() && Abs() == ServerModel.RunPosted(old(Abs()))
    {
      ghost var before := Abs();
      var p := io.posted[0];
      io.posted := io.posted[1..];
      assert Abs() == before.(posted := io.posted);
      RequestOn(live[p.session], p.source);
    }

    method RequestStream(d: DeviceId, source: SourceId, destination: Url)
      requires Valid()
      modifies this`contexts, contexts.Values, live.Values
      ensures Valid() && Abs() == RequestFromServer(old(Abs()), d, source, destination)
      ensures fresh(contexts.Values - old(contexts.Values))
    {
      hide Valid, Abs, RequestFromServer, SessionRequest;
      ghost var before := Abs();
      var context := Get(d);
      Want(d, source, destination);
      RequestSteps(before, d, source, destination);
      if context.activeSession != null {
        RequestOn(context.activeSession, source);
      }
    }

    method Want(d: DeviceId, source: SourceId, destination: Url)
      requires Valid() && d in contexts
      modifies contexts[d]
      ensures Valid() && contexts[d].activeSession == old(contexts[d].activeSession)
      ensures var ctx := ContextOf(old(Abs()), d);
              Abs() == WithContext(old(Abs()), d, ctx.(wanted := map[source := destination] + ctx.wanted))
    {
      ghost var before := Abs();
      contexts[d].StreamRequested(source, destination);
      assert Abs().sessions == before.sessions;
      OneEntry(before.contexts, Abs().contexts, d, ContextView(d));
    }

    method Unwant(d: DeviceId, source: SourceId)
      requires Valid() && d in contexts
      modifies contexts[d]
      ensures Valid() && contexts[d].activeSession == old(contexts[d].activeSession)
      ensures var ctx := ContextOf(old(Abs()), d);
              Abs() == WithContext(old(Abs()), d, ctx.(wanted := ctx.wanted - {source}))
    {
      ghost var before := Abs();
      contexts[d].StopStreamRequested(source);
      assert Abs().sessions == before.sessions;
      OneEntry(before.contexts, Abs().contexts, d, ContextView(d));
    }

    method StopOn(session: ServerSession, source: SourceId)
      requires Valid() && Bound(session)
      modifies session`sent
      ensures Valid() && session.id in old(Abs()).sessions
      ensures Abs() == Send(old(Abs()), session.id, Message.StopStream(source))
    {
      ghost var before := Abs();
      session.StopStream(source);
      assert Abs().contexts == before.contexts;
      OneEntry(before.sessions, Abs().sessions, session.id, session.View());
    }

    method StopStream(d: DeviceId, source: SourceId)
      requires Valid()
      modifies this`contexts, contexts.Values, live.Values
      ensures Valid() && Abs() == StopFromServer(old(Abs()), d, source)
      ensures fresh(contexts.Values - old(contexts.Values))
    {
      hide Valid, Abs, StopFromServer, Send;
      ghost var before := Abs();
      var context := Get(d);
      Unwant(d, source);
      StopSteps(before, d, source);
      if context.activeSession != null {
        StopOn(context.activeSession, source);
      }
    }
  }

  /** The pieces of the two server calls, put together. */
  lemma RequestSteps(c: Control, d: DeviceId, source: SourceId, destination: Url)
    ensures var ctx := ContextOf(c, d);
            var fetched := WithContext(c, d, ctx);
            var t := WithContext(fetched, d, ctx.(wanted := map[source := destination] + ctx.wanted));
            && ContextOf(fetched, d) == ctx
            && RequestFromServer(c, d, source, destination) ==
                 if ctx.active.Some? then SessionRequest(t, ctx.active.value, source) else t
  {
    var ctx := ContextOf(c, d);
    assert map[source := destination] + ctx.wanted
        == if source in ctx.wanted then ctx.wanted else ctx.wanted[source := destination];
    assert c.contexts[d := ctx][d := ctx.(wanted := map[source := destination] + ctx.wanted)]
        == c.contexts[d := ctx.(wanted := map[source := destination] + ctx.wanted)];
  }

  lemma StopSteps(c: Control, d: DeviceId, source: SourceId)
    ensures var ctx := ContextOf(c, d);
            var fetched := WithContext(c, d, ctx);
            var t := WithContext(fetched, d, ctx.(wanted := ctx.wanted - {source}));
            && ContextOf(fetched, d) == ctx
            && StopFromServer(c, d, source) ==
                 if ctx.active.Some? && ctx.active.value in t.sessions
                 then Send(t, ctx.active.value, Message.StopStream(source)) else t
  {
    var ctx := ContextOf(c, d);
    assert c.contexts[d := ctx][d := ctx.(wanted := ctx.wanted - {source})]
        == c.contexts[d := ctx.(wanted := ctx.wanted - {source})];
  }

  lemma BindSteps(c: Control, id: SessionId, device: DeviceId)
    requires id in c.sessions
    ensures var ctx := ContextOf(c, device);
            var fetched := WithContext(c, device, ctx);
            var sessions := c.sessions[id := c.sessions[id].(accepted := true)];
            WithContext(fetched.(sessions := sessions), device, ctx.(active := Some(id)))
            == WithContext(c.(sessions := sessions), device, ctx.(active := Some(id)))
  {
    var ctx := ContextOf(c, device);
    var taken := ctx.(active := Some(id));
    assert c.contexts[device := ctx][device := taken] == c.contexts[device := taken];
  }

  /** The pieces of a successful handshake. */
  lemma ConnectedSteps(c: Control, id: SessionId, device: DeviceId)
    ensures var s := Session(device, false, false, [], None);
            var added := c.(sessions := c.sessions[id := s]);
            var ctx := ContextOf(c, device);
            && ContextOf(added, device) == ctx
            && added.sessions[id := s.(accepted := true)] == c.sessions[id := s.(accepted := true)]
            && Connected(c, id, device, true, true) ==
                 if ctx.active.Some? then WithContext(added, device, ctx)
                 else
                   var accepted := added.sessions[id := s.(accepted := true)];
                   WithContext(added.(sessions := accepted), device, ctx.(active := Some(id)))
  {
    var s := Session(device, false, false, [], None);
    assert c.sessions[id := s][id := s.(accepted := true)] == c.sessions[id := s.(accepted := true)];
  }
}
