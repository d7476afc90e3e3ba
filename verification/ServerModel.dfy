/**
 The server side as a transition system: the table of published paths in
 Server/RestreamServer/Server.cpp, the wanted streams and active sessions of
 Server/ControlServer/Sessions.cpp, the calls that connect the two in
 Server/ControlServer/Server.cpp and Server/ServerMain.cpp, and the control sessions of
 Server/ControlServer/ServerSession.cpp with a log of what each of them sent.
 */
module ServerModel {

  import opened Options

  type DeviceId = string
  type SourceId = string
  type UserName = string
  type Path = string
  type Url = string
  type SessionId = nat

  // ---------------------------------------------------------------- control server

  /** The two messages that command streams; the others are not recorded. */
  datatype Message = RequestStream(source: SourceId, destination: Url) | StopStream(source: SourceId)

  /** `device` is empty until the peer has presented a certificate; `accepted` says that the session
      has been bound to the context of its device. `ready` records that ClientReady was handled, and
      `sent` what was sent. */
  datatype Session = Session(
    device: DeviceId,
    accepted: bool,
    ready: bool,
    sent: seq<Message>,
    timer: Option<SourceId>)

  /** What outlives the sessions of a device: the session in charge and the wanted streams. */
  datatype Context = Context(active: Option<SessionId>, wanted: map<SourceId, Url>)

  datatype Restore = Restore(session: SessionId, source: SourceId)

  datatype Control = Control(
    contexts: map<DeviceId, Context>,
    sessions: map<SessionId, Session>,
    posted: seq<Restore>)

  const NO_CONTEXT := Context(None, map[])

  /** Sessions::get: a missing context is created empty. */
  function ContextOf(c: Control, d: DeviceId): Context {
    if d in c.contexts then c.contexts[d] else NO_CONTEXT
  }

  function WithContext(c: Control, d: DeviceId, ctx: Context): Control {
    c.(contexts := c.contexts[d := ctx])
  }

  function Send(c: Control, id: SessionId, m: Message): Control
    requires id in c.sessions
  {
    c.(sessions := c.sessions[id := c.sessions[id].(sent := c.sessions[id].sent + [m])])
  }

  /** ServerSession::requestStream: sends only what is still wanted at that moment. */
  function SessionRequest(c: Control, id: SessionId, source: SourceId): Control {
    if id !in c.sessions then c
    else
      var wanted := ContextOf(c, c.sessions[id].device).wanted;
      if source in wanted then Send(c, id, RequestStream(source, wanted[source])) else c
  }

  /** The handshake of a new connection has ended, well or not; `known` is the answer of the device
      configuration. A session is refused when the device already has one. */
  function Connected(c: Control, id: SessionId, device: DeviceId, ok: bool, known: bool): Control {
    if !ok || !known then c.(sessions := c.sessions[id := Session(device, false, false, [], None)])
    else
      var ctx := ContextOf(c, device);
      var accepted := ctx.active.None?;
      var t := c.(sessions := c.sessions[id := Session(device, accepted, false, [], None)]);
      WithContext(t, device, if accepted then ctx.(active := Some(id)) else ctx)
  }

  /** The destructor; restores and the timer of a session end with it. */
  function Destroyed(c: Control, id: SessionId): Control {
    if id !in c.sessions then c
    else
      var s := c.sessions[id];
      var t := c.(sessions := c.sessions - {id}, posted := Others(c.posted, id));
      if s.accepted then WithContext(t, s.device, ContextOf(t, s.device).(active := None)) else t
  }

  function Others(posted: seq<Restore>, id: SessionId): (r: seq<Restore>)
    ensures forall p :: p in r <==> p in posted && p.session != id
  {
    if posted == [] then []
    else (if posted[0].session == id then [] else [posted[0]]) + Others(posted[1..], id)
  }

  function Restores(id: SessionId, order: seq<SourceId>): (r: seq<Restore>)
    ensures forall p :: p in r <==> p.session == id && p.source in order
  {
    if order == [] then [] else [Restore(id, order[0])] + Restores(id, order[1..])
  }

  /** ClientReady posts one restore per wanted stream, in the order of the map. */
  function ClientReady(c: Control, id: SessionId, order: seq<SourceId>): Control {
    if id !in c.sessions || !c.sessions[id].accepted then c
    else
      c.(sessions := c.sessions[id := c.sessions[id].(ready := true)], posted := c.posted + Restores(id, order))
  }

  /** A failure report re-arms the one retry timer of the session, if the stream is still wanted. */
  function StreamStatus(c: Control, id: SessionId, source: SourceId, success: bool): Control {
    if id !in c.sessions || !c.sessions[id].accepted || success then c
    else if source in ContextOf(c, c.sessions[id].device).wanted then
      c.(sessions := c.sessions[id := c.sessions[id].(timer := Some(source))])
    else c
  }

  function TimerFires(c: Control, id: SessionId): Control {
    if id !in c.sessions || c.sessions[id].timer.None? then c
    else
      var s := c.sessions[id];
      SessionRequest(c.(sessions := c.sessions[id := s.(timer := None)]), id, s.timer.value)
  }

  function RunPosted(c: Control): Control {
    if c.posted == [] then c
    else SessionRequest(c.(posted := c.posted[1..]), c.posted[0].session, c.posted[0].source)
  }

  /** The branch of streamRequested that only logs an error. */
  predicate AlreadyActive(c: Control, d: DeviceId, source: SourceId) {
    source in ContextOf(c, d).wanted
  }

  /** Server::requestStream. */
  function RequestFromServer(c: Control, d: DeviceId, source: SourceId, destination: Url): Control {
    var ctx := ContextOf(c, d);
    var ctx' := if AlreadyActive(c, d, source) then ctx else ctx.(wanted := ctx.wanted[source := destination]);
    var t := WithContext(c, d, ctx');
    if ctx'.active.Some? then SessionRequest(t, ctx'.active.value, source) else t
  }

  /** Server::stopStream. */
  function StopFromServer(c: Control, d: DeviceId, source: SourceId): Control {
    var ctx := ContextOf(c, d);
    var ctx' := ctx.(wanted := ctx.wanted - {source});
    var t := WithContext(c, d, ctx');
    if ctx'.active.Some? && ctx'.active.value in t.sessions then Send(t, ctx'.active.value, StopStream(source)) else t
  }

  // ---------------------------------------------------------------- what a session was last told

  function LastAbout(sent: seq<Message>, source: SourceId): Option<Message> {
    if sent == [] then None
    else if sent[|sent| - 1].source == source then Some(sent[|sent| - 1])
    else LastAbout(sent[..|sent| - 1], source)
  }

  lemma LastAfterSend(sent: seq<Message>, m: Message, source: SourceId)
    ensures LastAbout(sent + [m], source) == if m.source == source then Some(m) else LastAbout(sent, source)
  {
    assert (sent + [m])[..|sent|] == sent;
  }

  /** An accepted session is the one in charge of its device, and the other way round. */
  ghost predicate BindingInv(c: Control) {
    && (forall d :: d in c.contexts && c.contexts[d].active.Some? ==>
          var id := c.contexts[d].active.value;
          id in c.sessions && c.sessions[id].accepted && c.sessions[id].device == d)
    && (forall id :: id in c.sessions && c.sessions[id].accepted ==>
          c.sessions[id].device in c.contexts && c.contexts[c.sessions[id].device].active == Some(id))
  }

  /** A request is the last word about a source only while the source is wanted, and then it names the
      wanted destination; once ready, every wanted source has had it or has a restore coming. */
  ghost predicate Informed(s: Session, id: SessionId, wanted: map<SourceId, Url>, posted: seq<Restore>) {
    && (forall source :: LastAbout(s.sent, source).Some? && LastAbout(s.sent, source).value.RequestStream? ==>
          source in wanted && LastAbout(s.sent, source).value.destination == wanted[source])
    && (s.ready ==> forall source :: source in wanted ==>
          Restore(id, source) in posted || LastAbout(s.sent, source) == Some(RequestStream(source, wanted[source])))
  }

  ghost predicate SessionInv(c: Control, id: SessionId) {
    id in c.sessions ==>
      var s := c.sessions[id];
      if s.accepted then Informed(s, id, ContextOf(c, s.device).wanted, c.posted)
      else s.sent == [] && s.timer.None? && !s.ready
  }

  ghost predicate PostedInv(c: Control) {
    forall p :: p in c.posted ==> p.session in c.sessions && c.sessions[p.session].accepted
  }

  ghost predicate ControlInv(c: Control) {
    BindingInv(c) && PostedInv(c) && forall id :: SessionInv(c, id)
  }

  /** What a session's invariant depends on. */
  lemma SessionFrame(c: Control, t: Control, id: SessionId)
    requires SessionInv(c, id)
    requires id in t.sessions ==> id in c.sessions && t.sessions[id] == c.sessions[id]
    requires id in t.sessions && t.sessions[id].accepted ==>
               ContextOf(t, t.sessions[id].device).wanted == ContextOf(c, t.sessions[id].device).wanted
    requires forall source :: Restore(id, source) in c.posted ==> Restore(id, source) in t.posted
    ensures SessionInv(t, id)
  {}

  /** Informed about every source but one. */
  ghost predicate InformedBut(s: Session, id: SessionId, wanted: map<SourceId, Url>, posted: seq<Restore>,
                              but: SourceId)
  {
    && (forall source :: LastAbout(s.sent, source).Some? && LastAbout(s.sent, source).value.RequestStream? ==>
          source in wanted && LastAbout(s.sent, source).value.destination == wanted[source])
    && (s.ready ==> forall source :: source in wanted && source != but ==>
          Restore(id, source) in posted || LastAbout(s.sent, source) == Some(RequestStream(source, wanted[source])))
  }

  lemma InformedAfterRequest(s: Session, id: SessionId, wanted: map<SourceId, Url>, posted: seq<Restore>,
                             source: SourceId)
    requires source in wanted && InformedBut(s, id, wanted, posted, source)
    ensures Informed(s.(sent := s.sent + [RequestStream(source, wanted[source])]), id, wanted, posted)
  {
    forall x {:trigger LastAbout(s.sent, x)}
      ensures LastAbout(s.sent + [RequestStream(source, wanted[source])], x)
           == if x == source then Some(RequestStream(source, wanted[source])) else LastAbout(s.sent, x)
    {
      LastAfterSend(s.sent, RequestStream(source, wanted[source]), x);
    }
  }

  lemma InformedAfterStop(s: Session, id: SessionId, wanted: map<SourceId, Url>, posted: seq<Restore>, source: SourceId)
    requires Informed(s, id, wanted, posted)
    ensures Informed(s.(sent := s.sent + [StopStream(source)]), id, wanted - {source}, posted)
  {
    forall x {:trigger LastAbout(s.sent, x)}
      ensures LastAbout(s.sent + [StopStream(source)], x)
           == if x == source then Some(StopStream(source)) else LastAbout(s.sent, x)
    {
      LastAfterSend(s.sent, StopStream(source), x);
    }
  }

  /** Everything is in order, except that session `id` may not have heard about `source` yet. */
  ghost predicate AllBut(c: Control, id: SessionId, source: SourceId) {
    && BindingInv(c) && PostedInv(c) && (forall other :: other != id ==> SessionInv(c, other))
    && id in c.sessions && c.sessions[id].accepted
    && InformedBut(c.sessions[id], id, ContextOf(c, c.sessions[id].device).wanted, c.posted, source)
  }

  /** Replacing a session by one with the same binding concerns no other session. */
  lemma ReplaceSession(c: Control, id: SessionId, s: Session)
    requires BindingInv(c) && PostedInv(c) && (forall other :: other != id ==> SessionInv(c, other))
    requires id in c.sessions && s.accepted == c.sessions[id].accepted && s.device == c.sessions[id].device
    requires SessionInv(c.(sessions := c.sessions[id := s]), id)
    ensures ControlInv(c.(sessions := c.sessions[id := s]))
  {
    var t := c.(sessions := c.sessions[id := s]);
    forall other
      ensures SessionInv(t, other)
    {
      if other != id { SessionFrame(c, t, other); }
    }
  }

  lemma SessionRequestInforms(c: Control, id: SessionId, source: SourceId)
    requires AllBut(c, id, source)
    ensures ControlInv(SessionRequest(c, id, source))
  {
    var s := c.sessions[id];
    var wanted := ContextOf(c, s.device).wanted;
    if source in wanted {
      InformedAfterRequest(s, id, wanted, c.posted, source);
      ReplaceSession(c, id, s.(sent := s.sent + [RequestStream(source, wanted[source])]));
    } else {
      assert SessionInv(c, id);
    }
  }

  lemma ConnectedKeeps(c: Control, id: SessionId, device: DeviceId, ok: bool, known: bool)
    requires ControlInv(c) && id !in c.sessions
    ensures ControlInv(Connected(c, id, device, ok, known))
  {
    var t := Connected(c, id, device, ok, known);
    forall other
      ensures SessionInv(t, other)
    {
      if other != id { SessionFrame(c, t, other); }
    }
  }

  lemma DestroyedKeeps(c: Control, id: SessionId)
    requires ControlInv(c)
    ensures ControlInv(Destroyed(c, id))
  {
    var t := Destroyed(c, id);
    forall other
      ensures SessionInv(t, other)
    {
      if other != id { SessionFrame(c, t, other); }
    }
  }

  lemma ClientReadyKeeps(c: Control, id: SessionId, order: seq<SourceId>)
    requires ControlInv(c)
    requires id in c.sessions ==> forall k :: k in ContextOf(c, c.sessions[id].device).wanted ==> k in order
    ensures ControlInv(ClientReady(c, id, order))
  {
    var t := ClientReady(c, id, order);
    forall other
      ensures SessionInv(t, other)
    {
      if other != id { SessionFrame(c, t, other); } else { assert SessionInv(c, id); }
    }
  }

  lemma StreamStatusKeeps(c: Control, id: SessionId, source: SourceId, success: bool)
    requires ControlInv(c)
    ensures ControlInv(StreamStatus(c, id, source, success))
  {
    var t := StreamStatus(c, id, source, success);
    if t != c {
      assert SessionInv(c, id);
      ReplaceSession(c, id, c.sessions[id].(timer := Some(source)));
    }
  }

  lemma TimerFiresKeeps(c: Control, id: SessionId)
    requires ControlInv(c)
    ensures ControlInv(TimerFires(c, id))
  {
    if id in c.sessions && c.sessions[id].timer.Some? {
      var s := c.sessions[id].(timer := None);
      assert SessionInv(c, id);
      ReplaceSession(c, id, s);
      SessionRequestInforms(c.(sessions := c.sessions[id := s]), id, c.sessions[id].timer.value);
    }
  }

  lemma RunPostedKeeps(c: Control)
    requires ControlInv(c)
    ensures ControlInv(RunPosted(c))
  {
    if c.posted != [] {
      var p, t := c.posted[0], c.(posted := c.posted[1..]);
      assert c.posted == [p] + t.posted;
      assert SessionInv(c, p.session);
      forall other
        ensures other != p.session ==> SessionInv(t, other)
      {
        if other != p.session { SessionFrame(c, t, other); }
      }
      SessionRequestInforms(t, p.session, p.source);
    }
  }

  lemma RequestKeeps(c: Control, d: DeviceId, source: SourceId, destination: Url)
    requires ControlInv(c)
    ensures ControlInv(RequestFromServer(c, d, source, destination))
  {
    var ctx := ContextOf(c, d);
    var ctx' := if AlreadyActive(c, d, source) then ctx else ctx.(wanted := ctx.wanted[source := destination]);
    var t := WithContext(c, d, ctx');
    forall other
      ensures (ctx.active.Some? ==> other != ctx.active.value) ==> SessionInv(t, other)
    {
      assert SessionInv(c, other);
    }
    if ctx.active.Some? {
      assert SessionInv(c, ctx.active.value);
      SessionRequestInforms(t, ctx.active.value, source);
    }
  }

  lemma StopKeeps(c: Control, d: DeviceId, source: SourceId)
    requires ControlInv(c)
    ensures ControlInv(StopFromServer(c, d, source))
  {
    var ctx := ContextOf(c, d);
    var wanted := ctx.wanted - {source};
    var t := WithContext(c, d, ctx.(wanted := wanted));
    forall other
      ensures (ctx.active.Some? ==> other != ctx.active.value) ==> SessionInv(t, other)
    {
      assert SessionInv(c, other);
    }
    if ctx.active.Some? {
      var id := ctx.active.value;
      assert SessionInv(c, id);
      InformedAfterStop(c.sessions[id], id, ctx.wanted, c.posted, source);
      ReplaceSession(t, id, c.sessions[id].(sent := c.sessions[id].sent + [StopStream(source)]));
    }
  }
}
