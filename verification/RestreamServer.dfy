/**
 The callbacks of Server/RestreamServer/Server.cpp on its table of paths, wired to the
 control server as Server/ServerMain.cpp does. Refines ServerWorld.
 */
module RestreamServers {

  import opened Options
  import opened ServerModel
  import opened ServerWorld
  import opened ControlServers

  class RestreamServer {
    const site: Site
    const control: Server
    var paths: map<Path, PathInfo>
    ghost var playing: set<Path>  // bookkeeping of the model: see ServerWorld.World

    ghost predicate Valid()
      reads this, control, control.contexts.Values, control.live.Values
    {
      control.Valid()
    }

    ghost function Abs(): World
      reads this, control, control.io, control.contexts.Values, control.live.Values
      requires Valid()
    {
      World(paths, playing, control.Abs())
    }

    constructor (site: Site, control: Server)
      requires control.Valid() && control.contexts == map[] && control.live == map[] && control.io.posted == []
      ensures this.control == control && this.site == site
      ensures Valid() && Abs() == INITIAL
    {
      this.site, this.control := site, control;
      paths, playing := map[], {};
    }

    /** `found` is what the configuration answers for the player's user and the source of the path. */
    method OnFirstPlayerConnected(path: Path, found: Option<DeviceId>)
      requires Valid()
      modifies this`paths, this`playing
      modifies control`contexts, control.contexts.Values, control.live.Values
      ensures Valid() && Abs() == FirstPlayerConnected(old(Abs()), site, path, found)
    {
      hide Server.Valid, Server.Abs, RequestFromServer, ExtractSourceId;
      playing := playing + {path};
      var sourceId := ExtractSourceId(path);
      if found.None? { return; }
      if path !in paths {
        paths := paths[path := PathInfo(found.value, sourceId, true, false)];
      } else {
        paths := paths[path := paths[path].(hasPlayers := true)];
      }
      control.RequestStream(found.value, sourceId, RecordUrl(site, sourceId));
    }

    method OnLastPlayerDisconnected(path: Path)
      requires Valid()
      modifies this`paths, this`playing
      modifies control`contexts, control.contexts.Values, control.live.Values
      ensures Valid() && Abs() == LastPlayerDisconnected(old(Abs()), path)
    {
      hide Server.Valid, Server.Abs, StopFromServer;
      playing := playing - {path};
      if path !in paths { return; }
      paths := paths[path := paths[path].(hasPlayers := false)];
      control.StopStream(paths[path].device, paths[path].source);
      if !paths[path].hasPlayers && !paths[path].hasRecorder {
        paths := paths - {path};
        assert paths == old(paths) - {path};
      }
    }

    method OnRecorderConnected(path: Path, user: UserName, confirmed: bool)
      requires Valid()
      modifies this`paths
      ensures Valid() && Abs() == RecorderConnected(old(Abs()), path, user, confirmed)
    {
      var sourceId := ExtractSourceId(path);
      if !confirmed { return; }
      if path !in paths {
        paths := paths[path := PathInfo(user, sourceId, false, true)];
      } else {
        paths := paths[path := paths[path].(hasRecorder := true)];
      }
    }

    method OnRecorderDisconnected(path: Path)
      requires Valid()
      modifies this`paths
      ensures Valid() && Abs() == RecorderDisconnected(old(Abs()), path)
    {
      if path !in paths { return; }
      paths := paths[path := paths[path].(hasRecorder := false)];
      if !paths[path].hasPlayers && !paths[path].hasRecorder {
        paths := paths - {path};
        assert paths == old(paths) - {path};
      }
    }
  }
}
