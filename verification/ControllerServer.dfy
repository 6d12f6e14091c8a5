/** The controller service: its methods change the backend call by call. */
module ControllerServers {
  import opened Strings
  import opened Identifiers
  import opened Nvme
  import opened Controller

  class ControllerServer {
    var backend: Backend

    constructor ()
      ensures backend == []
    {
      backend := [];
    }

    /** The lookup by pool and name. */
    method GetExistingVolume(req: CreateReq, env: CreateEnv) returns (volumeID: Option<string>)
      ensures volumeID == (match if env.lookupFails then None else Find(backend, Wanted(req))
                           case None => None
                           case Some(id) => Some(IDFor(Wanted(req).cluster, req, id)))
    {
      if env.lookupFails {
        return None;
      }
      var place := Wanted(req);
      for i := 0 to |backend|
        invariant Find(backend, place) == Find(backend[i..], place)
      {
        if backend[i].place == place {
          return Some(IDFor(place.cluster, req, backend[i].id));
        }
        assert backend[i..][1..] == backend[i + 1..];
      }
      return None;
    }

    method AddVolume(id: string, place: Place, o: Outcome) returns (ok: bool)
      modifies this
      ensures (backend, ok) == Add(old(backend), id, place, o)
    {
      if o == Lost || Exists(backend, place.cluster, id) {
        return false;
      }
      backend := backend + [Lvol(id, place)];
      return o == Ok;
    }

    /** handleSnapshotSource and handleVolumeSource */
    method HandleSource(req: CreateReq, env: CreateEnv) returns (volumeID: Option<string>)
      modifies this
      ensures (backend, volumeID) == FromSource(old(backend), req, env)
    {
      var cluster := SourceCluster(req.source);
      if cluster.None? || !env.sourceClient {
        return None;
      }
      if req.source.FromVolume? {
        if env.snapshot.None? {
          return None;
        }
        var snapshot := GetSnapshot(SnapshotID(SpdkSnapshot(cluster.value, env.snapshot.value)));
        if snapshot.None? {
          return None;
        }
      }
      var ok := AddVolume(env.newID, Place(cluster.value, env.clonePool, req.name), env.clone);
      return if ok then Some(IDFor(cluster.value, req, env.newID)) else None;
    }

    method Provision(req: CreateReq, env: CreateEnv) returns (volumeID: Option<string>)
      modifies this
      ensures (backend, volumeID) == Controller.Provision(old(backend), req, env)
    {
      volumeID := GetExistingVolume(req, env);
      if volumeID.Some? {
        return;
      }
      if req.source != NoSource {
        volumeID := HandleSource(req, env);
        return;
      }
      if !env.prepares {
        return None;
      }
      var ok := AddVolume(env.newID, Wanted(req), env.create);
      return if ok then Some(IDFor(Wanted(req).cluster, req, env.newID)) else None;
    }

    method CreateVolume(req: CreateReq, env: CreateEnv) returns (volumeID: Option<string>)
      modifies this
      ensures (backend, volumeID) == Controller.CreateVolume(old(backend), req, env)
    {
      if "cluster_id" !in req.params || !env.client {
        return None;
      }
      volumeID := Provision(req, env);
      if volumeID.None? {
        return None;
      }
      if !Published(backend, Wanted(req).cluster, volumeID.value, env) {
        backend := CleanUp(backend, volumeID.value, env);
        return None;
      }
    }

    method DeleteVolume(volumeID: string, env: Controller.DeleteEnv) returns (ok: bool)
      modifies this
      ensures (backend, ok) == Controller.DeleteVolume(old(backend), volumeID, env)
    {
      var v := GetSpdkVol(volumeID);
      if v.None? || !env.client || !env.unpublished || !Exists(backend, v.value.clusterID, v.value.lvolID) {
        return false;
      }
      if env.delete != Lost {
        backend := Drop(backend, v.value.clusterID, v.value.lvolID);
      }
      return env.delete == Ok;
    }
  }
}
