/** The node service itself: each method is one call, from taking the volume's lock to giving it back. */
module NodeServers {
  import opened Strings
  import opened Contexts
  import opened PathSort
  import opened Nvme
  import opened NvmeHosts
  import opened NodeOps
  import opened NodeSteps
  import opened NodeWorld
  import opened Tables

  class NodeServer {
    var points: map<string, Point>
    var stashes: map<string, Stash>
    const host: NvmeHost

    function State(): World
      reads this, host
    {
      World(points, stashes, host.subs)
    }

    ghost predicate Valid()
      reads this, host
    {
      State().Valid()
    }

    constructor ()
      ensures Valid() && fresh(host) && State() == World(map[], map[], map[])
    {
      points, stashes := map[], map[];
      host := new NvmeHost();
    }

    /** Mount, unmount, mkdir and rm all come down to this. */
    method SetPoint(path: string, p: Point)
      requires Valid()
      modifies this`points
      ensures Valid() && State() == old(State()).WithPoint(path, p)
    {
      PutLean(points, path, Absent, p);
      points := Put(points, path, Absent, p);
    }

    method SetStash(parent: string, st: Stash)
      requires Valid()
      modifies this`stashes
      ensures Valid() && State() == old(State()).WithStash(parent, st)
    {
      PutLean(stashes, parent, NoFile, st);
      stashes := Put(stashes, parent, NoFile, st);
    }

    method CreateMountPoint(path: string, check: Check, mkdir: Outcome) returns (mounted: Option<bool>)
      requires Valid()
      modifies this`points
      ensures var (p, found) := NodeOps.CreateMountPoint(old(State()).PointIn(path), check, mkdir);
              Valid() && mounted == found && State() == old(State()).WithPoint(path, p)
    {
      var p := State().PointIn(path);
      PutGet(points, path, Absent);
      var answer := IsMountPoint(p, check);
      if answer == NotExist {
        var (q, ok) := Make(p, mkdir);
        SetPoint(path, q);
        return if ok then Some(false) else None;
      }
      return if answer.IsMount? then Some(answer.mounted) else None;
    }

    method DeleteMountPoint(path: string, env: DeleteEnv) returns (ok: bool)
      requires Valid()
      modifies this`points
      ensures var (p, done) := NodeOps.DeleteMountPoint(old(State()).PointIn(path), env);
              Valid() && ok == done && State() == old(State()).WithPoint(path, p)
    {
      var p := State().PointIn(path);
      PutGet(points, path, Absent);
      var isMount := false;
      match IsMountPoint(p, env.check) {
        case NotExist => return true;
        case OtherError => return false;
        case CorruptedMnt => isMount := true;
        case IsMount(mounted) => isMount := mounted;
      }
      if isMount {
        var (q, unmounted) := Unmount(p, env.unmount);
        ghost var points0 := points;
        SetPoint(path, q);
        if !unmounted {
          return false;
        }
        PutPut(points0, path, Absent, q, Remove(q, env.remove).0);
      }
      var (r, removed) := Remove(State().PointIn(path), env.remove);
      SetPoint(path, r);
      return removed;
    }

    /** stageVolume */
    method StageVolume(path: string, device: string, req: StageReq, env: StageEnv) returns (ok: bool)
      requires Valid()
      modifies this`points
      ensures var (p, done) := StageMount(old(State()).PointIn(path), req, device, env);
              Valid() && ok == done && State() == old(State()).WithPoint(path, p)
    {
      ghost var points0 := points;
      if req.cap == Block {
        PutGet(points, path, Absent);
        return true;
      }
      var mounted := CreateMountPoint(path, env.pointCheck, env.mkdir);
      if mounted.None? {
        return false;
      }
      if mounted.value {
        return true;
      }
      var entry := StageEntry(req, device);
      if entry.None? {
        return false;
      }
      ghost var q := State().PointIn(path);
      var (p, done) := MountOn(State().PointIn(path), entry.value, env.mount);
      PutPut(points0, path, Absent, q, p);
      SetPoint(path, p);
      if !done {
        return false;
      }
      if NeedsTune(req) && !env.tune {
        return false;
      }
      return true;
    }

    method NodeStageVolume(vol: string, req: StageReq, env: StageEnv) returns (ok: bool)
      requires Valid()
      modifies this, host
      ensures Valid() && (State(), ok) == ServeIn(Job(vol, StageCall(req, env)), old(State()))
    {
      ghost var w, job := State(), Job(vol, StageCall(req, env));
      ghost var nqn := NqnOf(PlannedInit(job, w));
      var path := StagingTargetPath(req.parent, vol);
      ViewIdentity(job, w, nqn);
      match IsMountPoint(State().PointIn(path), env.check) {
        case OtherError => return false;
        case CorruptedMnt => return true;
        case IsMount(mounted) => if mounted { return true; }
        case NotExist =>
      }
      var vc := req.context["stagingParentPath" := Plain(req.parent)];
      var init := NewInitiator(vc);
      if init.None? {
        return false;
      }
      var space := host.Connect(init.value, env.connect);
      ghost var up := State().SubIn(nqn);
      if space.None? {
        return false;
      }
      var device := DeviceOf(init.value, space.value);
      var staged := StageVolume(path, device, req, env);
      if !staged {
        var _ := host.Disconnect(init.value, env.undo);
        PutPut(w.subs, nqn, NO_SUBSYSTEM, up, State().SubIn(nqn));
        return false;
      }
      vc := vc["devicePath" := Plain(device)];
      var (st, saved) := WriteStash(State().StashIn(req.parent), vc, env.write);
      SetStash(req.parent, st);
      if !saved {
        var _ := host.Disconnect(init.value, env.undo);
        PutPut(w.subs, nqn, NO_SUBSYSTEM, up, State().SubIn(nqn));
        return false;
      }
      return true;
    }

    method NodeUnstageVolume(vol: string, parent: string, env: UnstageEnv) returns (ok: bool)
      requires Valid()
      modifies this, host
      ensures Valid() && (State(), ok) == ServeIn(Job(vol, UnstageCall(parent, env)), old(State()))
    {
      ghost var w, job := State(), Job(vol, UnstageCall(parent, env));
      ghost var nqn := NqnOf(PlannedInit(job, w));
      ViewIdentity(job, w, nqn);
      var deleted := DeleteMountPoint(StagingTargetPath(parent, vol), env.del);
      if !deleted {
        return false;
      }
      var init := StashedInitiator(State().StashIn(parent), env.readable);
      if init.None? {
        return false;
      }
      var gone := host.Disconnect(init.value, env.disc);
      if !gone {
        return false;
      }
      var (st, cleaned) := CleanStash(State().StashIn(parent), env.clean);
      SetStash(parent, st);
      return cleaned;
    }

    /** publishVolume */
    method NodePublishVolume(vol: string, req: PublishReq, env: PublishEnv) returns (ok: bool)
      requires Valid()
      modifies this`points
      ensures Valid() && (State(), ok) == ServeIn(Job(vol, PublishCall(req, env)), old(State()))
    {
      ghost var w, job := State(), Job(vol, PublishCall(req, env));
      ghost var nqn := NqnOf(PlannedInit(job, w));
      ViewIdentity(job, w, nqn);
      var source := StagingTargetPath(req.parent, vol);
      match req.cap {
        case Block =>
          var c := ReadStash(State().StashIn(req.parent), env.readable);
          if c.None? || Lookup(c.value, "devicePath") == Plain("") {
            return false;
          }
          source := Word(Lookup(c.value, "devicePath"));
          var (q, made) := Make(State().PointIn(req.target), env.make);
          SetPoint(req.target, q);
          if !made {
            if q != Absent {
              PutPut(w.points, req.target, Absent, q, Remove(q, env.unmake).0);
              SetPoint(req.target, Remove(q, env.unmake).0);
            }
            return false;
          }
        case MountCap(_, _) =>
          var mounted := CreateMountPoint(req.target, env.check, env.mkdir);
          if mounted.None? {
            return false;
          }
          if mounted.value {
            return true;
          }
        case NoCapability =>
      }
      ghost var q := State().PointIn(req.target);
      var (p, bound) := MountOn(State().PointIn(req.target), BindEntry(req.cap, source), env.mount);
      PutPut(w.points, req.target, Absent, q, p);
      SetPoint(req.target, p);
      return bound;
    }

    method NodeUnpublishVolume(vol: string, target: string, env: DeleteEnv) returns (ok: bool)
      requires Valid()
      modifies this`points
      ensures Valid() && (State(), ok) == ServeIn(Job(vol, UnpublishCall(target, env)), old(State()))
    {
      ghost var w, job := State(), Job(vol, UnpublishCall(target, env));
      ViewIdentity(job, w, NqnOf(PlannedInit(job, w)));
      ok := DeleteMountPoint(target, env);
    }

    /** Writing back what was read changes nothing. */
    static lemma ViewIdentity(job: Job, w: World, nqn: string)
      ensures w.WithPoint(PathOf(job), w.PointIn(PathOf(job))) == w
      ensures w.WithStash(ParentOf(job), w.StashIn(ParentOf(job))) == w
      ensures w.WithSub(nqn, w.SubIn(nqn)) == w
      ensures WithView(job, w, nqn, ViewOf(job, w, nqn)) == w
    {}
  }
}
