/**
 Players, recorders and control sessions together: the published paths of
 Server/RestreamServer/Server.cpp on top of the control server of ServerModel, connected by
 the two callbacks of Server/ServerMain.cpp.
 */
module ServerWorld {

  import opened Options
  import opened ServerModel

  // ---------------------------------------------------------------- source ids in paths

  /** g_strsplit(s, "/", n) for a non-empty s. */
  function Pieces(s: string, n: nat): (r: seq<string>)
    requires n > 0
    ensures 1 <= |r| <= n
  {
    if n == 1 || '/' !in s then [s] else [Before(s)] + Pieces(s[|Before(s)| + 1..], n - 1)
  }

  /** Up to the first slash. */
  function Before(s: string): (r: string)
    ensures '/' !in r && r <= s
    ensures '/' in s ==> |r| < |s| && s[|r|] == '/'
    ensures '/' !in s ==> r == s
  {
    if s == "" || s[0] == '/' then "" else [s[0]] + Before(s[1..])
  }

  /** The second of at most three tokens, or nothing. */
  function ExtractSourceId(path: Path): SourceId {
    if path == "" then ""
    else
      var tokens := Pieces(path, 3);
      if |tokens| < 2 then "" else tokens[1]
  }

  lemma {:induction false} BeforeSlash(a: string, rest: string)
    requires '/' !in a
    ensures Before(a + ("/" + rest)) == a
  {
    var s := a + ("/" + rest);
    if a != "" {
      BeforeSlash(a[1..], rest);
      assert s[0] == a[0] && s[1..] == a[1..] + ("/" + rest);
      assert Before(s) == [a[0]] + a[1..];
    } else {
      assert s[0] == '/';
    }
  }

  /** The source id is what stands between the first slash and the second one, or the end; a path
      without a slash has none. */
  lemma SourceIdOfPath(head: string, id: SourceId, rest: string)
    requires '/' !in head && '/' !in id
    ensures ExtractSourceId(head) == ""
    ensures ExtractSourceId(head + ("/" + id)) == id
    ensures ExtractSourceId(head + ("/" + (id + ("/" + rest)))) == id
  {
    hide Pieces;
    PiecesStep(head, id, 3);
    NoMorePieces(id, 2);
    NoMorePieces(head, 3);
    var tail := id + ("/" + rest);
    PiecesStep(head, tail, 3);
    PiecesStep(id, rest, 2);
  }

  lemma PiecesStep(head: string, rest: string, n: nat)
    requires '/' !in head && n > 1
    ensures Pieces(head + ("/" + rest), n) == [head] + Pieces(rest, n - 1)
  {
    BeforeSlash(head, rest);
    var s := head + ("/" + rest);
    assert s[|head|] == '/' && s[|head| + 1..] == rest;
  }

  lemma NoMorePieces(s: string, n: nat)
    requires '/' !in s && n > 0
    ensures Pieces(s, n) == [s]
  {}

  // ---------------------------------------------------------------- state and events

  datatype PathInfo = PathInfo(device: DeviceId, source: SourceId, hasPlayers: bool, hasRecorder: bool)

  /** `playing` holds the paths whose first player has come and whose last one has not left, as the
      RTSP library sees it. */
  datatype World = World(paths: map<Path, PathInfo>, playing: set<Path>, control: Control)

  const INITIAL := World(map[], {}, Control(map[], map[], []))

  /** The fixed surroundings: which device a source belongs to, which path it is played and recorded
      on, and the address of the restream server. */
  datatype Site = Site(deviceOf: SourceId -> DeviceId, pathOf: SourceId -> Path, serverUrl: Url)

  function RecordUrl(site: Site, source: SourceId): Url {
    site.serverUrl + source + "?record"
  }

  /** `found`, `confirmed` and `known` are answers of the configuration. */
  datatype Event =
    | FirstPlayer(path: Path, found: Option<DeviceId>)
    | LastPlayer(path: Path)
    | RecorderOn(path: Path, user: UserName, confirmed: bool)
    | RecorderOff(path: Path)
    | Connect(id: SessionId, device: DeviceId, ok: bool, known: bool)
    | Disconnect(id: SessionId)
    | Ready(id: SessionId, order: seq<SourceId>)
    | Status(id: SessionId, source: SourceId, success: bool)
    | Retry(id: SessionId)
    | Posted

  function FirstPlayerConnected(w: World, site: Site, path: Path, found: Option<DeviceId>): World {
    var t := w.(playing := w.playing + {path});
    if found.None? then t
    else
      var d, source := found.value, ExtractSourceId(path);
      var info := if path in w.paths then w.paths[path].(hasPlayers := true) else PathInfo(d, source, true, false);
      t.(paths := w.paths[path := info],
         control := RequestFromServer(w.control, d, source, RecordUrl(site, source)))
  }

  function LastPlayerDisconnected(w: World, path: Path): World {
    var t := w.(playing := w.playing - {path});
    if path !in w.paths then t
    else
      var info := w.paths[path].(hasPlayers := false);
      t.(paths := if info.hasRecorder then w.paths[path := info] else w.paths - {path},
         control := StopFromServer(w.control, info.device, info.source))
  }

  function RecorderConnected(w: World, path: Path, user: UserName, confirmed: bool): World {
    if !confirmed then w
    else if path in w.paths then w.(paths := w.paths[path := w.paths[path].(hasRecorder := true)])
    else w.(paths := w.paths[path := PathInfo(user, ExtractSourceId(path), false, true)])
  }

  function RecorderDisconnected(w: World, path: Path): World {
    if path !in w.paths then w
    else
      var info := w.paths[path].(hasRecorder := false);
      w.(paths := if info.hasPlayers then w.paths[path := info] else w.paths - {path})
  }

  function Step(w: World, site: Site, e: Event): World {
    match e
    case FirstPlayer(path, found) => FirstPlayerConnected(w, site, path, found)
    case LastPlayer(path) => LastPlayerDisconnected(w, path)
    case RecorderOn(path, user, confirmed) => RecorderConnected(w, path, user, confirmed)
    case RecorderOff(path) => RecorderDisconnected(w, path)
    case Connect(id, device, ok, known) => w.(control := Connected(w.control, id, device, ok, known))
    case Disconnect(id) => w.(control := Destroyed(w.control, id))
    case Ready(id, order) => w.(control := ClientReady(w.control, id, order))
    case Status(id, source, success) => w.(control := StreamStatus(w.control, id, source, success))
    case Retry(id) => w.(control := TimerFires(w.control, id))
    case Posted => w.(control := RunPosted(w.control))
  }

  predicate Own(site: Site, path: Path) {
    path == site.pathOf(ExtractSourceId(path))
  }

  /** The assumptions: a source determines its device and its path, first and last players of a path
      alternate, session names are new, the configuration has no nameless device, and ClientReady walks
      all wanted streams. */
  predicate Allowed(w: World, site: Site, e: Event) {
    match e
    case FirstPlayer(path, found) =>
      && Own(site, path) && path !in w.playing
      && (found.Some? ==> found.value == site.deviceOf(ExtractSourceId(path)))
    case LastPlayer(path) => Own(site, path) && path in w.playing
    case RecorderOn(path, user, confirmed) =>
      Own(site, path) && (confirmed ==> user == site.deviceOf(ExtractSourceId(path)))
    case Connect(id, device, ok, known) => id !in w.control.sessions && (known ==> device != "")
    case Ready(id, order) =>
      id in w.control.sessions ==>
        forall k :: k in ContextOf(w.control, w.control.sessions[id].device).wanted ==> k in order
    case _ => true
  }

  ghost predicate AllowedRun(w: World, site: Site, events: seq<Event>)
    decreases |events|
  {
    events == [] || (Allowed(w, site, events[0]) && AllowedRun(Step(w, site, events[0]), site, events[1..]))
  }

  function Execute(w: World, site: Site, events: seq<Event>): World
    decreases |events|
  {
    if events == [] then w else Execute(Step(w, site, events[0]), site, events[1..])
  }

  ghost predicate Reachable(w: World, site: Site) {
    exists events :: AllowedRun(INITIAL, site, events) && Execute(INITIAL, site, events) == w
  }

  // ---------------------------------------------------------------- invariants

  /** Players are watching this source of this device. */
  predicate Watched(w: World, site: Site, d: DeviceId, source: SourceId) {
    var path := site.pathOf(source);
    path in w.paths && w.paths[path].hasPlayers && w.paths[path].device == d && w.paths[path].source == source
  }

  ghost predicate PathsInv(w: World, site: Site) {
    forall p :: p in w.paths ==>
      var info := w.paths[p];
      && Own(site, p) && info.source == ExtractSourceId(p) && info.device == site.deviceOf(info.source)
      && (info.hasPlayers || info.hasRecorder)
      && (info.hasPlayers ==> p in w.playing)
  }

  /** What a device should stream is what its players watch, each source to its record address. */
  ghost predicate WantedInv(w: World, site: Site) {
    forall d, source ::
      var wanted := ContextOf(w.control, d).wanted;
      && (source in wanted <==> Watched(w, site, d, source))
      && (source in wanted ==> wanted[source] == RecordUrl(site, source))
  }

  ghost predicate WorldInv(w: World, site: Site) {
    PathsInv(w, site) && WantedInv(w, site) && ControlInv(w.control)
  }

  ghost predicate SameWanted(c: Control, t: Control) {
    forall d :: ContextOf(t, d).wanted == ContextOf(c, d).wanted
  }

  lemma SessionStepsKeepWanted(w: World, site: Site, e: Event)
    requires e.Connect? || e.Disconnect? || e.Ready? || e.Status? || e.Retry? || e.Posted?
    ensures SameWanted(w.control, Step(w, site, e).control)
    ensures Step(w, site, e).paths == w.paths && Step(w, site, e).playing == w.playing
  {}

  lemma RequestWanted(c: Control, d: DeviceId, source: SourceId, url: Url)
    requires !AlreadyActive(c, d, source)
    ensures var t := RequestFromServer(c, d, source, url);
            forall x :: ContextOf(t, x).wanted ==
              if x == d then ContextOf(c, d).wanted[source := url] else ContextOf(c, x).wanted
  {}

  lemma StopWanted(c: Control, d: DeviceId, source: SourceId)
    ensures var t := StopFromServer(c, d, source);
            forall x :: ContextOf(t, x).wanted ==
              if x == d then ContextOf(c, d).wanted - {source} else ContextOf(c, x).wanted
  {}

  lemma FirstPlayerKeeps(w: World, site: Site, path: Path, found: Option<DeviceId>)
    requires WorldInv(w, site) && Allowed(w, site, FirstPlayer(path, found))
    ensures WorldInv(FirstPlayerConnected(w, site, path, found), site)
    ensures found.Some? ==> !AlreadyActive(w.control, found.value, ExtractSourceId(path))
  {
    hide ControlInv;
    var t := FirstPlayerConnected(w, site, path, found);
    if found.Some? {
      var d, source := found.value, ExtractSourceId(path);
      assert !Watched(w, site, d, source);
      assert source in ContextOf(w.control, d).wanted <==> Watched(w, site, d, source);
      RequestKeeps(w.control, d, source, RecordUrl(site, source));
      RequestWanted(w.control, d, source, RecordUrl(site, source));
      forall x, y
        ensures y in ContextOf(t.control, x).wanted <==> Watched(t, site, x, y)
        ensures y in ContextOf(t.control, x).wanted ==> ContextOf(t.control, x).wanted[y] == RecordUrl(site, y)
      {
        assert y in ContextOf(w.control, x).wanted <==> Watched(w, site, x, y);
      }
    } else {
      SamePathsSameWanted(w, t, site);
    }
  }

  lemma SamePathsSameWanted(w: World, t: World, site: Site)
    requires WantedInv(w, site) && SameWanted(w.control, t.control)
    requires forall d, source :: Watched(t, site, d, source) <==> Watched(w, site, d, source)
    ensures WantedInv(t, site)
  {
    forall x, y
      ensures y in ContextOf(t.control, x).wanted <==> Watched(t, site, x, y)
      ensures y in ContextOf(t.control, x).wanted ==> ContextOf(t.control, x).wanted[y] == RecordUrl(site, y)
    {
      assert y in ContextOf(w.control, x).wanted <==> Watched(w, site, x, y);
      assert ContextOf(t.control, x).wanted == ContextOf(w.control, x).wanted;
    }
  }

  lemma LastPlayerKeeps(w: World, site: Site, path: Path)
    requires WorldInv(w, site) && Allowed(w, site, LastPlayer(path))
    ensures WorldInv(LastPlayerDisconnected(w, path), site)
  {
    hide ControlInv;
    var t := LastPlayerDisconnected(w, path);
    if path in w.paths {
      var info := w.paths[path];
      StopKeeps(w.control, info.device, info.source);
      StopWanted(w.control, info.device, info.source);
      forall x, y
        ensures y in ContextOf(t.control, x).wanted <==> Watched(t, site, x, y)
        ensures y in ContextOf(t.control, x).wanted ==> ContextOf(t.control, x).wanted[y] == RecordUrl(site, y)
      {
        assert y in ContextOf(w.control, x).wanted <==> Watched(w, site, x, y);
      }
    } else {
      SamePathsSameWanted(w, t, site);
    }
  }

  lemma StepKeeps(w: World, site: Site, e: Event)
    requires WorldInv(w, site) && Allowed(w, site, e)
    ensures WorldInv(Step(w, site, e), site)
  {
    hide WorldInv, Own;
    match e
    case FirstPlayer(path, found) => FirstPlayerKeeps(w, site, path, found);
    case LastPlayer(path) => LastPlayerKeeps(w, site, path);
    case RecorderOn(path, user, confirmed) => RecorderOnKeeps(w, site, path, user, confirmed);
    case RecorderOff(path) => RecorderOffKeeps(w, site, path);
    case _ => SessionStepKeepsWorld(w, site, e);
  }

  lemma RecorderOnKeeps(w: World, site: Site, path: Path, user: UserName, confirmed: bool)
    requires WorldInv(w, site) && Allowed(w, site, RecorderOn(path, user, confirmed))
    ensures WorldInv(RecorderConnected(w, path, user, confirmed), site)
  {
    hide ControlInv, WantedInv;
    SamePathsSameWanted(w, RecorderConnected(w, path, user, confirmed), site);
  }

  lemma RecorderOffKeeps(w: World, site: Site, path: Path)
    requires WorldInv(w, site)
    ensures WorldInv(RecorderDisconnected(w, path), site)
  {
    hide ControlInv, WantedInv;
    SamePathsSameWanted(w, RecorderDisconnected(w, path), site);
  }

  lemma SessionStepKeepsWorld(w: World, site: Site, e: Event)
    requires WorldInv(w, site) && Allowed(w, site, e)
    requires e.Connect? || e.Disconnect? || e.Ready? || e.Status? || e.Retry? || e.Posted?
    ensures WorldInv(Step(w, site, e), site)
  {
    hide ControlInv, WantedInv, SameWanted, Own;
    SessionStepKeeps(w, site, e);
    SessionStepsKeepWanted(w, site, e);
    SamePathsSameWanted(w, Step(w, site, e), site);
  }

  lemma SessionStepKeeps(w: World, site: Site, e: Event)
    requires ControlInv(w.control) && Allowed(w, site, e)
    requires e.Connect? || e.Disconnect? || e.Ready? || e.Status? || e.Retry? || e.Posted?
    ensures ControlInv(Step(w, site, e).control)
  {
    hide ControlInv, Connected, Destroyed, ClientReady, StreamStatus, TimerFires, RunPosted;
    match e {
      case Connect(id, device, ok, known) => ConnectedKeeps(w.control, id, device, ok, known);
      case Disconnect(id) => DestroyedKeeps(w.control, id);
      case Ready(id, order) => ClientReadyKeeps(w.control, id, order);
      case Status(id, source, success) => StreamStatusKeeps(w.control, id, source, success);
      case Retry(id) => TimerFiresKeeps(w.control, id);
      case Posted => RunPostedKeeps(w.control);
    }
  }

  lemma {:induction false} ExecuteKeeps(w: World, site: Site, events: seq<Event>)
    requires WorldInv(w, site) && AllowedRun(w, site, events)
    ensures WorldInv(Execute(w, site, events), site)
    decreases |events|
  {
    hide WorldInv;
    if events != [] {
      StepKeeps(w, site, events[0]);
      ExecuteKeeps(Step(w, site, events[0]), site, events[1..]);
    }
  }

  lemma ReachableInv(w: World, site: Site)
    requires Reachable(w, site)
    ensures WorldInv(w, site)
  {
    var events :| AllowedRun(INITIAL, site, events) && Execute(INITIAL, site, events) == w;
    assert WorldInv(INITIAL, site);
    ExecuteKeeps(INITIAL, site, events);
  }

  // ---------------------------------------------------------------- results

  /** In every reachable state the wanted streams of a device are exactly its watched sources, with
      their record addresses; every published path has a player or a recorder; and a first player
      never meets the "already active" branch, even where a recorder made the entry. */
  lemma WantedIsWatched(w: World, site: Site)
    requires Reachable(w, site)
    ensures forall d :: ContextOf(w.control, d).wanted.Keys == set p |
              p in w.paths && w.paths[p].hasPlayers && w.paths[p].device == d :: w.paths[p].source
    ensures forall d, source :: source in ContextOf(w.control, d).wanted ==>
              ContextOf(w.control, d).wanted[source] == RecordUrl(site, source)
    ensures forall p :: p in w.paths ==> w.paths[p].hasPlayers || w.paths[p].hasRecorder
    ensures forall path, d :: Allowed(w, site, FirstPlayer(path, Some(d))) ==>
              !AlreadyActive(w.control, d, ExtractSourceId(path))
  {
    ReachableInv(w, site);
    hide ControlInv;
    forall d
      ensures ContextOf(w.control, d).wanted.Keys == set p |
                p in w.paths && w.paths[p].hasPlayers && w.paths[p].device == d :: w.paths[p].source
    {
      forall source
        ensures source in ContextOf(w.control, d).wanted
           <==> exists p ::
                  p in w.paths && w.paths[p].hasPlayers && w.paths[p].device == d && w.paths[p].source == source
      {
        assert source in ContextOf(w.control, d).wanted <==> Watched(w, site, d, source);
        if p :| p in w.paths && w.paths[p].hasPlayers && w.paths[p].device == d && w.paths[p].source == source {
          assert Own(site, p);
        }
      }
    }
    forall path, d | Allowed(w, site, FirstPlayer(path, Some(d)))
      ensures !AlreadyActive(w.control, d, ExtractSourceId(path))
    {
      FirstPlayerKeeps(w, site, path, Some(d));
    }
  }

  /** No session is ever left with a request as the last word about a source nobody watches, nor with
      an outdated destination. */
  lemma NeverAskedInVain(w: World, site: Site, id: SessionId, source: SourceId)
    requires Reachable(w, site) && id in w.control.sessions
    ensures var last := LastAbout(w.control.sessions[id].sent, source);
            last.Some? && last.value.RequestStream? ==>
              && Watched(w, site, w.control.sessions[id].device, source)
              && last.value.destination == RecordUrl(site, source)
  {
    ReachableInv(w, site);
    var s := w.control.sessions[id];
    assert SessionInv(w.control, id);
    assert source in ContextOf(w.control, s.device).wanted <==> Watched(w, site, s.device, source);
  }

  /** Runs the posted restores until none is left. */
  function DrainPosted(c: Control): Control
    decreases |c.posted|
  {
    if c.posted == [] then c else DrainPosted(RunPosted(c))
  }

  lemma {:induction false} DrainPostedKeeps(c: Control)
    requires ControlInv(c)
    ensures ControlInv(DrainPosted(c)) && DrainPosted(c).posted == [] && SameWanted(c, DrainPosted(c))
    ensures DrainPosted(c).sessions.Keys == c.sessions.Keys
    ensures forall id :: id in c.sessions ==>
              var s, t := c.sessions[id], DrainPosted(c).sessions[id];
              t.device == s.device && t.accepted == s.accepted && t.ready == s.ready
    decreases |c.posted|
  {
    if c.posted != [] {
      RunPostedKeeps(c);
      DrainPostedKeeps(RunPosted(c));
    }
  }

  /** End to end: once the device has reported ready and its posted restores have run, the last
      message about a source is a request to its record address exactly when somebody watches it. */
  lemma DeviceFollowsPlayers(w: World, site: Site, id: SessionId, source: SourceId)
    requires Reachable(w, site) && id in w.control.sessions && w.control.sessions[id].ready
    ensures var s := DrainPosted(w.control).sessions;
            && id in s
            && (LastAbout(s[id].sent, source) == Some(RequestStream(source, RecordUrl(site, source)))
                <==> Watched(w, site, s[id].device, source))
  {
    ReachableInv(w, site);
    DrainPostedKeeps(w.control);
    var c := DrainPosted(w.control);
    assert SessionInv(w.control, id);
    assert SessionInv(c, id);
    var d := c.sessions[id].device;
    assert source in ContextOf(w.control, d).wanted <==> Watched(w, site, d, source);
    assert ContextOf(c, d).wanted == ContextOf(w.control, d).wanted;
  }

  // ---------------------------------------------------------------- where an assumption or an assertion fails

  /** With two paths for one source the control server is asked twice for the same stream, and the
      last player of either path stops it for both. */
  lemma OnePathPerSourceIsNeeded(site: Site, d: DeviceId)
    ensures var w1 := FirstPlayerConnected(INITIAL, site, "/s", Some(d));
            var w2 := FirstPlayerConnected(w1, site, "/s/1", Some(d));
            var w3 := LastPlayerDisconnected(w2, "/s/1");
            && AlreadyActive(w1.control, d, ExtractSourceId("/s/1"))
            && "/s" in w3.paths && w3.paths["/s"].hasPlayers && w3.paths["/s"].source == "s"
            && "s" !in ContextOf(w3.control, d).wanted
  {
    hide ExtractSourceId, RecordUrl;
    SourceIdOfPath("", "s", "1");
    assert "" + ("/" + "s") == "/s" && "" + ("/" + ("s" + ("/" + "1"))) == "/s/1";
    var c1 := FirstPlayerConnected(INITIAL, site, "/s", Some(d)).control;
    assert ContextOf(c1, d).wanted == map["s" := RecordUrl(site, "s")];
  }

  /** The destructor of a session asserts that it knows its device exactly when it has a context. */
  predicate DestructorAssertion(s: Session) {
    (s.device == "") == !s.accepted
  }

  /** In every run it holds of a session, from the end of its handshake to its destruction, exactly
      when no certificate was presented, or the handshake succeeded and the device was known and had no
      session at that moment. A failed handshake, an unknown device and a connected device each break
      it, once a certificate has named the device. */
  lemma DestructorAssertionExactly(site: Site, before: seq<Event>, connect: Event, rest: seq<Event>)
    requires connect.Connect? && AllowedRun(INITIAL, site, before + [connect] + rest)
    requires forall e :: e in rest && e.Connect? ==> e.id != connect.id
    requires connect.id in Execute(INITIAL, site, before + [connect] + rest).control.sessions
    ensures var c := Execute(INITIAL, site, before).control;
            var last := Execute(INITIAL, site, before + [connect] + rest).control;
            DestructorAssertion(last.sessions[connect.id]) <==>
              || connect.device == ""
              || (connect.ok && connect.known && ContextOf(c, connect.device).active.None?)
  {
    RunThrough(site, before, connect, rest);
    var w := Execute(INITIAL, site, before);
    BindingStays(Step(w, site, connect), site, connect.id, rest);
  }

  lemma RunThrough(site: Site, before: seq<Event>, e: Event, rest: seq<Event>)
    requires AllowedRun(INITIAL, site, before + [e] + rest)
    ensures var w := Execute(INITIAL, site, before);
            && Allowed(w, site, e) && AllowedRun(Step(w, site, e), site, rest)
            && Execute(INITIAL, site, before + [e] + rest) == Execute(Step(w, site, e), site, rest)
  {
    hide Allowed, Step;
    assert before + [e] + rest == before + ([e] + rest) && ([e] + rest)[1..] == rest;
    RunSplit(INITIAL, site, before, [e] + rest);
  }

  lemma {:induction false} RunSplit(w: World, site: Site, a: seq<Event>, b: seq<Event>)
    requires AllowedRun(w, site, a + b)
    ensures AllowedRun(Execute(w, site, a), site, b)
    ensures Execute(w, site, a + b) == Execute(Execute(w, site, a), site, b)
    decreases |a|
  {
    hide Allowed, Step;
    if a == [] {
      assert a + b == b;
    } else {
      assert (a + b)[1..] == a[1..] + b;
      RunSplit(Step(w, site, a[0]), site, a[1..], b);
    }
  }

  /** Nothing but a new connection changes what a session is bound to. */
  lemma {:induction false} BindingStays(w: World, site: Site, id: SessionId, events: seq<Event>)
    requires AllowedRun(w, site, events) && id in Execute(w, site, events).control.sessions
    requires forall e :: e in events && e.Connect? ==> e.id != id
    ensures id in w.control.sessions
    ensures var s, t := w.control.sessions[id], Execute(w, site, events).control.sessions[id];
            s.device == t.device && s.accepted == t.accepted
    decreases |events|
  {
    if events != [] {
      hide Step, Allowed;
      assert events == [events[0]] + events[1..];
      BindingStays(Step(w, site, events[0]), site, id, events[1..]);
      StepKeepsBinding(w, site, id, events[0]);
    }
  }

  lemma StepKeepsBinding(w: World, site: Site, id: SessionId, e: Event)
    requires id in Step(w, site, e).control.sessions && !(e.Connect? && e.id == id)
    ensures id in w.control.sessions
    ensures var s, t := w.control.sessions[id], Step(w, site, e).control.sessions[id];
            s.device == t.device && s.accepted == t.accepted
  {}

  /** A second connection of a connected device is such a session. */
  lemma RefusedDuplicateBreaksIt(site: Site, d: DeviceId)
    requires d != ""
    ensures var c1 := Connected(INITIAL.control, 1, d, true, true);
            var c2 := Connected(c1, 2, d, true, true);
            c1.sessions[1].accepted && !c2.sessions[2].accepted && !DestructorAssertion(c2.sessions[2])
  {}
}
