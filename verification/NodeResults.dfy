/**
 * What one node call leaves behind and exactly when it succeeds, in terms of its request and of the faults
 * it meets: what is mounted where, what is stashed, which subsystem is connected.
 */
module NodeResults {
  import opened Strings
  import opened Contexts
  import opened PathSort
  import opened Nvme
  import opened NodeOps
  import opened NodeRuns
  import opened NodeWorld
  import opened Tables

  // ---------- Stage ----------

  /** The device that the request asks to be mounted, with the file system and the flags it asks for. */
  ghost predicate IsRequested(e: Entry, req: StageReq, device: string) {
    && e.source == device
    && e.fsType == (if req.cap.MountCap? && req.cap.fsType != "" then req.cap.fsType else "ext4")
    && e.flags == (if req.cap.MountCap? then req.cap.flags else [])
                  + (if e.fsType == "xfs" then ["nouuid"] else []) + (if req.readOnly then ["ro"] else [])
  }

  ghost predicate Asks(cap: Capability, fsType: string) {
    if cap.MountCap? && cap.fsType != "" then fsType == cap.fsType else fsType == "ext4"
  }

  /** From the check of the mount point on nothing fails, and the context has what the file system needs. */
  ghost predicate MountsDevice(v: View, req: StageReq, env: StageEnv) {
    && env.pointCheck != Fails && (v.point == Absent ==> env.mkdir == Ok) && env.mount == Ok
    && (Asks(req.cap, "xfs") ==> AtoiText(Lookup(StageContext(req), "distr_ndcs")).Some?)
    && (Asks(req.cap, "ext4") && Lookup(StageContext(req), "tune2fs_reserved_blocks") != Plain("") ==> env.tune)
  }

  /** The subsystem and the namespace that Connect ends with for this request. */
  function Connected(v: View, req: StageReq, env: StageEnv): Option<(Subsystem, string)> {
    match NewInitiator(req.context)
    case None => None
    case Some(init) =>
      var (up, space) := Connect(init, v.sub, env.connect);
      if space.Some? then Some((up, space.value)) else None
  }

  function DevicePath(req: StageReq, space: string): string {
    var model := Lookup(req.context, "model");
    "/dev/disk/by-id/nvme-" + Word(model) + "_" + space
  }

  lemma RequestInitiator(req: StageReq)
    ensures NewInitiator(StageContext(req)) == NewInitiator(req.context)
    ensures NewInitiator(req.context).Some? ==>
              && NewInitiator(req.context).value.model == Lookup(req.context, "model")
              && NewInitiator(req.context).value.nsId == Lookup(req.context, "nsId")
              && NewInitiator(req.context).value.nqn == Lookup(req.context, "nqn")
  {
    StagedInitiator(req.context, req.parent, "");
  }

  /**
   * Exactly when Stage succeeds: something is mounted already, or the device is connected, mounted unless
   * in block mode, and the context is stashed.
   */
  lemma StageSucceeds(v: View, req: StageReq, env: StageEnv)
    ensures Stage(v, req, env).1
       <==> && env.check != Fails
            && (|| Mounted(v.point)
                || (&& Connected(v, req, env).Some? && (req.cap == Block || MountsDevice(v, req, env))
                    && env.write == Written))
  {
    RequestInitiator(req);
  }

  /**
   * What a successful Stage leaves: a staging path that was mounted stays as it was. Otherwise, but for
   * block mode, it carries one mount, of the connected device, as requested; and the stash reads back as
   * the request's context with that device's path.
   */
  lemma StageLeaves(v: View, req: StageReq, env: StageEnv)
    requires Stage(v, req, env).1
    ensures req.cap != Block ==> Mounted(Stage(v, req, env).0.point)
    ensures Mounted(v.point) ==> Stage(v, req, env).0 == v
    ensures !Mounted(v.point) ==>
              && Connected(v, req, env).Some?
              && var (up, space) := Connected(v, req, env).value;
              && var after := Stage(v, req, env).0;
              && var device := DevicePath(req, space);
              && after.sub == up
              && (if req.cap == Block then after.point == v.point
                  else after.point.Present? && |after.point.mounts| == 1
                       && IsRequested(after.point.mounts[0], req, device))
              && ReadStash(after.stash, true)
                 == Some(req.context["stagingParentPath" := Plain(req.parent)]["devicePath" := Plain(device)])
  {
    RequestInitiator(req);
    if !Mounted(v.point) {
      var device := DevicePath(req, Connected(v, req, env).value.1);
      StashRoundTrip(req.context["stagingParentPath" := Plain(req.parent)]["devicePath" := Plain(device)]);
    }
  }

  /** With the volume's own namespace exported, that device is the volume's own. */
  lemma StageOwnDevice(v: View, req: StageReq, env: StageEnv)
    requires Stage(v, req, env).1 && !Mounted(v.point)
    requires Sorted(v.sub.spaces) && Word(Lookup(req.context, "nsId")) in v.sub.spaces
    ensures var device := DevicePath(req, Word(Lookup(req.context, "nsId")));
            var after := Stage(v, req, env).0;
            && ReadStash(after.stash, true).Some?
            && Lookup(ReadStash(after.stash, true).value, "devicePath") == Plain(device)
            && (req.cap != Block ==>
                  after.point.Present? && |after.point.mounts| == 1 && IsRequested(after.point.mounts[0], req, device))
  {
    RequestInitiator(req);
    StageLeaves(v, req, env);
    ConnectFindsOwn(NewInitiator(req.context).value, v.sub, env.connect);
  }

  /**
   * A Stage that fails before or in Connect changes neither mount point nor stash. One that fails after it
   * takes the paths down again exactly when no other device is visible and the disconnect's calls work.
   */
  lemma StageRollsBack(v: View, req: StageReq, env: StageEnv)
    requires !Stage(v, req, env).1
    ensures Connected(v, req, env).None? || env.check == Fails ==>
              Stage(v, req, env).0.point == v.point && Stage(v, req, env).0.stash == v.stash
    ensures env.check == Fails || NewInitiator(req.context).None? ==> Stage(v, req, env).0 == v
    ensures Connected(v, req, env).Some? && env.check != Fails ==>
              var up := Connected(v, req, env).value.0;
              var left := Stage(v, req, env).0.sub;
              && left.spaces == up.spaces
              && (|up.spaces| > 1 ==> left == up)
              && (|up.spaces| == 1 ==>
                    (left.paths == []
                     <==> env.undo.down.resolves && env.undo.down.lists && EveryPathHit(up, env.undo.down)))
  {
    RequestInitiator(req);
    if Connected(v, req, env).Some? && env.check != Fails {
      var up := Connected(v, req, env).value.0;
      ConnectShows(NewInitiator(req.context).value, v.sub, env.connect);
      TeardownExactly(up, env.undo.down);
    }
  }

  // ---------- Unstage ----------

  /** Nothing fails on the way to an absent mount point. */
  ghost predicate Deletes(p: Point, env: DeleteEnv) {
    && env.check != Fails
    && (Mounted(p) ==> Depth(p) == 1 && env.unmount == Ok)
    && (p != Absent ==> env.remove == Ok)
  }

  lemma DeleteSucceeds(p: Point, env: DeleteEnv)
    ensures DeleteMountPoint(p, env).1 <==> Deletes(p, env)
    ensures DeleteMountPoint(p, env).1 ==> DeleteMountPoint(p, env).0 == Absent
    ensures DeleteMountPoint(p, env).0 == p || Depth(DeleteMountPoint(p, env).0) <= Depth(p)
    ensures env.check == Fails ==> DeleteMountPoint(p, env).0 == p
  {}

  /** Several devices are visible, or none, or the last one goes. */
  ghost predicate LetsGo(sub: Subsystem, env: DisconnectEnv) {
    |Visible(sub)| == 1 ==> env.down.resolves && env.down.lists && EveryPathHit(sub, env.down) && env.lag <= POLLS
  }

  lemma DisconnectSucceeds(sub: Subsystem, env: DisconnectEnv)
    ensures Disconnect(sub, env).1 <==> LetsGo(sub, env)
    ensures Disconnect(sub, env).1 ==>
              Disconnect(sub, env).0 == if |Visible(sub)| == 1 then Subsystem([], sub.spaces) else sub
  {
    TeardownExactly(sub, env.down);
  }

  /** Exactly when Unstage succeeds, and that it then leaves neither mount point, nor stash, nor own device. */
  lemma UnstageLeaves(v: View, env: UnstageEnv)
    ensures Unstage(v, env).1
       <==> && Deletes(v.point, env.del) && StashedInitiator(v.stash, env.readable).Some?
            && LetsGo(v.sub, env.disc) && env.clean == Ok
    ensures Unstage(v, env).1 ==>
              Unstage(v, env).0
              == View(Absent, NoFile, if |Visible(v.sub)| == 1 then Subsystem([], v.sub.spaces) else v.sub)
  {
    DeleteSucceeds(v.point, env.del);
    DisconnectSucceeds(v.sub, env.disc);
  }

  // ---------- Publish ----------

  /** Exactly when Publish succeeds. */
  lemma PublishSucceeds(p: Point, st: Stash, vol: string, req: PublishReq, env: PublishEnv)
    ensures Publish(p, st, vol, req, env).1
       <==> match req.cap
            case Block =>
              && ReadStash(st, env.readable).Some?
              && Lookup(ReadStash(st, env.readable).value, "devicePath") != Plain("")
              && env.make == Ok && env.mount == Ok
            case MountCap(_, _) =>
              if Mounted(p) then env.check == Answers
              else env.check != Fails && (p == Absent ==> env.mkdir == Ok) && env.mount == Ok
            case NoCapability => p != Absent && env.mount == Ok
  {}

  /**
   * What a successful Publish leaves: in mount mode a mounted target as it was, and otherwise one bind
   * mount more: of the stashed device in block mode, else of the volume's staging path.
   */
  lemma PublishBinds(p: Point, st: Stash, vol: string, req: PublishReq, env: PublishEnv)
    requires Publish(p, st, vol, req, env).1
    ensures var q := Publish(p, st, vol, req, env).0;
            if req.cap.MountCap? && Mounted(p) then q == p
            else
              && q.Present? && Depth(q) == Depth(p) + 1
              && (p.Present? ==> q.mounts[..Depth(p)] == p.mounts)
              && var e := q.mounts[Depth(p)];
              match req.cap
              case Block =>
                && ReadStash(st, env.readable).Some?
                && e == Entry(Word(Lookup(ReadStash(st, env.readable).value, "devicePath")), "", ["bind"])
              case MountCap(fsType, flags) => e == Entry(req.parent + "/" + vol, fsType, flags + ["bind"])
              case NoCapability => e == Entry(req.parent + "/" + vol, "", ["bind"])
  {}

  /** A Publish that fails leaves at most the one mount that reported an error, and no file it could not open. */
  lemma PublishFails(p: Point, st: Stash, vol: string, req: PublishReq, env: PublishEnv)
    requires !Publish(p, st, vol, req, env).1
    ensures var q := Publish(p, st, vol, req, env).0;
            && Depth(p) <= Depth(q) <= Depth(p) + 1
            && (Depth(q) > Depth(p) ==> env.mount == Late)
            && (req.cap == Block && ReadStash(st, env.readable).Some?
                && Lookup(ReadStash(st, env.readable).value, "devicePath") != Plain("")
                && env.make == Late && env.unmake == Ok && !Mounted(p)
                ==> q == Absent)
  {}

  /** After a Stage, publishing binds what that Stage set up. */
  lemma StageThenPublish(
    v: View, vol: string, req: StageReq, env: StageEnv, target: Point, pub: PublishReq, penv: PublishEnv)
    requires Stage(v, req, env).1 && !Mounted(v.point) && pub.parent == req.parent
    requires pub.cap == Block ==> penv.readable && penv.make == Ok
    requires pub.cap.MountCap? ==> penv.check == Answers && penv.mkdir == Ok && !Mounted(target)
    requires pub.cap == NoCapability ==> target != Absent
    requires penv.mount == Ok
    ensures var (q, ok) := Publish(target, Stage(v, req, env).0.stash, vol, pub, penv);
            && ok && q.Present? && Depth(q) == Depth(target) + 1 && Connected(v, req, env).Some?
            && q.mounts[Depth(target)].source
               == if pub.cap == Block then DevicePath(req, Connected(v, req, env).value.1) else req.parent + "/" + vol
  {
    StageLeaves(v, req, env);
    var st := Stage(v, req, env).0.stash;
    assert DevicePath(req, Connected(v, req, env).value.1)[0] == '/';
    PublishSucceeds(target, st, vol, pub, penv);
    PublishBinds(target, st, vol, pub, penv);
  }

  // ---------- On the whole node ----------

  /** A staging call touches the volume's staging path, its stash, and the subsystem of the given name. */
  ghost predicate TouchesOnly(w: World, after: World, path: string, parent: string, nqn: string) {
    && (forall p | p != path :: after.PointIn(p) == w.PointIn(p))
    && (forall p | p != parent :: after.StashIn(p) == w.StashIn(p))
    && (forall n | n != nqn :: after.SubIn(n) == w.SubIn(n))
  }

  function ViewAt(w: World, path: string, parent: string, nqn: string): View {
    View(w.PointIn(path), w.StashIn(parent), w.SubIn(nqn))
  }

  /** Stage acts on the path of the volume in its staging directory and on the subsystem the context names. */
  lemma StageOnNode(vol: string, req: StageReq, env: StageEnv, w: World)
    ensures var (after, ok) := ServeIn(Job(vol, StageCall(req, env)), w);
            var path := req.parent + "/" + vol;
            var nqn := if NewInitiator(req.context).Some? then Word(Lookup(req.context, "nqn")) else "";
            && TouchesOnly(w, after, path, req.parent, nqn)
            && (ViewAt(after, path, req.parent, nqn), ok) == Stage(ViewAt(w, path, req.parent, nqn), req, env)
  {
    RequestInitiator(req);
  }

  /** Unstage acts on the same path and stash, and on the subsystem that the stash names. */
  lemma UnstageOnNode(vol: string, parent: string, env: UnstageEnv, w: World)
    ensures var (after, ok) := ServeIn(Job(vol, UnstageCall(parent, env)), w);
            var path := parent + "/" + vol;
            var init := StashedInitiator(w.StashIn(parent), env.readable);
            var nqn := if init.Some? then Word(init.value.nqn) else "";
            && TouchesOnly(w, after, path, parent, nqn)
            && (ViewAt(after, path, parent, nqn), ok) == Unstage(ViewAt(w, path, parent, nqn), env)
  {}

  /** Publish and Unpublish act on the target path alone. */
  lemma PublishOnNode(vol: string, req: PublishReq, env: PublishEnv, w: World)
    requires w.Valid()
    ensures var (after, ok) := ServeIn(Job(vol, PublishCall(req, env)), w);
            && after == w.WithPoint(req.target, after.PointIn(req.target))
            && (after.PointIn(req.target), ok)
               == Publish(w.PointIn(req.target), w.StashIn(req.parent), vol, req, env)
  {}

  lemma UnpublishOnNode(vol: string, target: string, env: DeleteEnv, w: World)
    requires w.Valid()
    ensures var (after, ok) := ServeIn(Job(vol, UnpublishCall(target, env)), w);
            && after == w.WithPoint(target, after.PointIn(target))
            && (after.PointIn(target), ok) == DeleteMountPoint(w.PointIn(target), env)
  {}

  /**
   * Stage and then Unstage of one volume, both successful: path and stash are gone, no other volume's path
   * or stash is touched, and every subsystem but the volume's own is as it was.
   */
  lemma StageThenUnstage(vol: string, req: StageReq, env: StageEnv, undo: UnstageEnv, w: World)
    requires ServeIn(Job(vol, StageCall(req, env)), w).1 && !Mounted(w.PointIn(req.parent + "/" + vol))
    requires ServeIn(Job(vol, UnstageCall(req.parent, undo)), ServeIn(Job(vol, StageCall(req, env)), w).0).1
    ensures var staged := ServeIn(Job(vol, StageCall(req, env)), w).0;
            var after := ServeIn(Job(vol, UnstageCall(req.parent, undo)), staged).0;
            var path := req.parent + "/" + vol;
            && TouchesOnly(w, after, path, req.parent, Word(Lookup(req.context, "nqn")))
            && after.PointIn(path) == Absent && after.StashIn(req.parent) == NoFile
            && after.SubIn(Word(Lookup(req.context, "nqn"))).spaces == w.SubIn(Word(Lookup(req.context, "nqn"))).spaces
  {
    var path, nqn := req.parent + "/" + vol, Word(Lookup(req.context, "nqn"));
    var staged := ServeIn(Job(vol, StageCall(req, env)), w).0;
    RequestInitiator(req);
    StageOnNode(vol, req, env, w);
    UnstageOnNode(vol, req.parent, undo, staged);
    var before := ViewAt(w, path, req.parent, nqn);
    StageSucceeds(before, req, env);
    StageLeaves(before, req, env);
    StagedInitiator(req.context, req.parent, DevicePath(req, Connected(before, req, env).value.1));
    UnstageLeaves(ViewAt(staged, path, req.parent, nqn), undo);
    ConnectShows(NewInitiator(req.context).value, before.sub, env.connect);
  }
}
