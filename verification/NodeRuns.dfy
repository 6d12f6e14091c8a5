/** What repeated node calls converge to, with faults at any outside call. */
module NodeRuns {
  import opened Strings
  import opened Contexts
  import opened PathSort
  import opened Nvme
  import opened NodeOps

  // ---------- Unstage converges ----------

  predicate QuietDelete(env: DeleteEnv) {
    env.check == Answers && env.unmount == Ok && env.remove == Ok
  }

  predicate QuietDisconnect(env: DisconnectEnv) {
    && env.down.resolves && env.down.lists && env.lag <= POLLS
    && forall k | 0 <= k < |env.down.cmds| :: env.down.cmds[k] == Ok
  }

  /** No outside call of this Unstage fails. */
  predicate QuietUnstage(env: UnstageEnv) {
    QuietDelete(env.del) && env.readable && QuietDisconnect(env.disc) && env.clean == Ok
  }

  function Unstages(v: View, envs: seq<UnstageEnv>): View
    decreases |envs|
  {
    if envs == [] then v else Unstages(Unstage(v, envs[0]).0, envs[1..])
  }

  lemma QuietDisconnectResult(sub: Subsystem, env: DisconnectEnv)
    requires QuietDisconnect(env)
    ensures Disconnect(sub, env) == (if |Visible(sub)| == 1 then sub.(paths := []) else sub, true)
  {
    TeardownEmpties(sub, env.down);
  }

  /** A disconnect that went wrong somewhere leaves a subsystem that the next one finishes. */
  lemma DisconnectConverges(sub: Subsystem, env: DisconnectEnv, last: DisconnectEnv)
    requires QuietDisconnect(last)
    ensures Disconnect(Disconnect(sub, env).0, last) == Disconnect(sub, last)
    ensures Disconnect(sub, env).1 ==> Disconnect(sub, env).0 == Disconnect(sub, last).0
  {
    var after := Disconnect(sub, env).0;
    QuietDisconnectResult(sub, last);
    QuietDisconnectResult(after, last);
    DisconnectKeepsSpaces(sub, env);
  }

  lemma DisconnectKeepsSpaces(sub: Subsystem, env: DisconnectEnv)
    ensures Disconnect(sub, env).0.spaces == sub.spaces
    ensures |Visible(sub)| != 1 ==> Disconnect(sub, env).0 == sub
  {}

  lemma DeleteConverges(p: Point, env: DeleteEnv, last: DeleteEnv)
    requires Depth(p) <= 1 && QuietDelete(last)
    ensures DeleteMountPoint(p, last) == (Absent, true)
    ensures Depth(DeleteMountPoint(p, env).0) <= 1
    ensures DeleteMountPoint(p, env).1 ==> DeleteMountPoint(p, env).0 == Absent
  {}

  lemma OneMoreUnstage(v: View, env: UnstageEnv, last: UnstageEnv)
    requires Depth(v.point) <= 1 && QuietUnstage(last)
    ensures Depth(Unstage(v, env).0.point) <= 1
    ensures Unstage(Unstage(v, env).0, last).0 == Unstage(v, last).0
  {
    DeleteConverges(v.point, env.del, last.del);
    DeleteConverges(Unstage(v, env).0.point, last.del, last.del);
    DisconnectConverges(v.sub, env.disc, last.disc);
  }

  /**
   * Any number of Unstage calls that fail anywhere, followed by one without a fault, end where that one
   * call alone would have ended.
   */
  lemma {:induction false} UnstageConverges(v: View, envs: seq<UnstageEnv>, last: UnstageEnv)
    requires Depth(v.point) <= 1 && QuietUnstage(last)
    ensures Unstage(Unstages(v, envs), last).0 == Unstage(v, last).0
    decreases |envs|
  {
    if envs != [] {
      OneMoreUnstage(v, envs[0], last);
      UnstageConverges(Unstage(v, envs[0]).0, envs[1..], last);
    }
  }

  /** After it, an Unstage with whatever faults changes nothing and reports an error. */
  lemma UnstageAgain(v: View, last: UnstageEnv, again: UnstageEnv)
    requires Depth(v.point) <= 1 && QuietUnstage(last)
    ensures Unstage(Unstage(v, last).0, again) == (Unstage(v, last).0, false)
    ensures Unstage(v, last).1 <==> StashedInitiator(v.stash, true).Some?
  {
    DeleteConverges(v.point, last.del, last.del);
    QuietDisconnectResult(v.sub, last.disc);
  }

  // ---------- Publish and Unpublish of one target ----------

  datatype TargetCall = Pub(stash: Stash, vol: string, req: PublishReq, penv: PublishEnv) | Unpub(denv: DeleteEnv)

  function ServeTarget(p: Point, c: TargetCall): (Point, bool) {
    match c
    case Pub(st, vol, req, env) => Publish(p, st, vol, req, env)
    case Unpub(env) => DeleteMountPoint(p, env)
  }

  function TargetRun(p: Point, calls: seq<TargetCall>): Point
    decreases |calls|
  {
    if calls == [] then p else TargetRun(ServeTarget(p, calls[0]).0, calls[1..])
  }

  /** Mount-mode publishing never stacks a second bind mount on a target, whatever fails. */
  lemma {:induction false} TargetDepth(p: Point, calls: seq<TargetCall>)
    requires Depth(p) <= 1
    requires forall c | c in calls && c.Pub? :: c.req.cap.MountCap?
    ensures Depth(TargetRun(p, calls)) <= 1
    decreases |calls|
  {
    if calls != [] {
      assert calls[0] in calls;
      TargetDepth(ServeTarget(p, calls[0]).0, calls[1..]);
    }
  }

  predicate QuietPublish(env: PublishEnv) {
    env.readable && env.make == Ok && env.check == Answers && env.mkdir == Ok && env.mount == Ok
  }

  /** Repeating a successful mount-mode call without a fault succeeds and changes nothing. */
  lemma TargetIdempotent(p: Point, c: TargetCall, again: TargetCall)
    requires ServeTarget(p, c).1
    requires c.Pub? ==> c.req.cap.MountCap? && again.Pub? && again.req == c.req && QuietPublish(again.penv)
    requires c.Unpub? ==> again.Unpub? && QuietDelete(again.denv)
    ensures ServeTarget(ServeTarget(p, c).0, again) == (ServeTarget(p, c).0, true)
  {}

  /** Publishing without a fault reaches the one bind mount from anything a failed attempt leaves. */
  lemma PublishConverges(p: Point, st: Stash, vol: string, req: PublishReq, env: PublishEnv)
    requires Depth(p) <= 1 && req.cap.MountCap? && QuietPublish(env)
    ensures Publish(p, st, vol, req, env).1 && Depth(Publish(p, st, vol, req, env).0) == 1
  {}

  /**
   * Publishing in block mode, or without a capability on a path that is there, has no such check: every
   * call adds one mount.
   */
  lemma {:induction false} BlockPublishStacks(
    p: Point, st: Stash, vol: string, req: PublishReq, env: PublishEnv, n: nat)
    requires !req.cap.MountCap? && QuietPublish(env)
    requires req.cap == NoCapability ==> p.Present?
    requires req.cap == Block ==> ReadStash(st, true).Some?
                                  && Lookup(ReadStash(st, true).value, "devicePath") != Plain("")
    ensures var calls := seq(n, i => Pub(st, vol, req, env)); Depth(TargetRun(p, calls)) == Depth(p) + n
    decreases n
  {
    if n > 0 {
      var calls := seq(n, i => Pub(st, vol, req, env));
      assert calls[1..] == seq(n - 1, i => Pub(st, vol, req, env));
      BlockPublishStacks(ServeTarget(p, calls[0]).0, st, vol, req, env, n - 1);
    }
  }

  /** Undoing stacked mounts takes one Unpublish each; only the last one reports success. */
  lemma UnpublishOnePerMount(p: Point, env: DeleteEnv)
    requires QuietDelete(env)
    ensures DeleteMountPoint(p, env).1 <==> Depth(p) <= 1
    ensures Depth(DeleteMountPoint(p, env).0) == if Depth(p) == 0 then 0 else Depth(p) - 1
  {}

  // ---------- Staging without a stash ----------

  /** The staging target is mounted only with a stash that names the device and rebuilds the initiator. */
  predicate Recoverable(st: Stash) {
    && StashedInitiator(st, true).Some?
    && Lookup(ReadStash(st, true).value, "devicePath") != Plain("")
  }

  /** The calls between the mount and the stash write report success. */
  predicate ReachesWrite(req: StageReq, env: StageEnv) {
    env.mount == Ok && (NeedsTune(req) ==> env.tune)
  }

  /** This Stage gets as far as leaving a new mount on the staging target. */
  predicate LeavesMount(v: View, req: StageReq, env: StageEnv) {
    !Mounted(v.point) && Mounted(Stage(v, req, env).0.point)
  }

  /** Exactly when it does: once connected, only a fault before the mount, or block mode, keeps it from it. */
  lemma LeavesMountExactly(v: View, req: StageReq, env: StageEnv)
    ensures LeavesMount(v, req, env)
       <==> && !Mounted(v.point) && env.check != Fails && req.cap != Block
            && NewInitiator(StageContext(req)).Some?
            && Connect(NewInitiator(StageContext(req)).value, v.sub, env.connect).1.Some?
            && env.pointCheck != Fails && (v.point == Absent ==> env.mkdir == Ok)
            && StageEntry(req, "").Some? && env.mount != Lost
  {}

  /**
   * A Stage that leaves a new mount leaves it recoverable exactly when the stash write ended with the whole
   * file, or never touched a stash that was good before.
   */
  lemma StageRecoverable(v: View, req: StageReq, env: StageEnv)
    requires LeavesMount(v, req, env)
    ensures Recoverable(Stage(v, req, env).0.stash)
       <==> if ReachesWrite(req, env) && env.write != Unwritten then env.write != TornWrite else Recoverable(v.stash)
  {
    var init := NewInitiator(StageContext(req)).value;
    var (up, space) := Connect(init, v.sub, env.connect);
    var device := DeviceOf(init, space.value);
    WrittenStashRecoverable(req, init, space.value);
    var (p, ok) := StageMount(v.point, req, device, env);
    assert ok <==> ReachesWrite(req, env);
    if ok {
      assert Stage(v, req, env).0.stash
          == WriteStash(v.stash, StagedContext(req.context, req.parent, device), env.write).0;
    } else {
      assert Stage(v, req, env).0.stash == v.stash;
    }
  }

  lemma WrittenStashRecoverable(req: StageReq, init: Initiator, space: string)
    requires NewInitiator(StageContext(req)) == Some(init)
    ensures Recoverable(Saved(EncodeContext(StagedContext(req.context, req.parent, DeviceOf(init, space)))))
  {
    var staged := StagedContext(req.context, req.parent, DeviceOf(init, space));
    StashRoundTrip(staged);
    StagedInitiator(req.context, req.parent, DeviceOf(init, space));
    assert Lookup(staged, "devicePath") == Plain(DeviceOf(init, space));
    assert DeviceOf(init, space)[0] == '/';
  }

  /**
   * A fault of tune2fs after the mount: the connection is rolled back, the mount stays, the next Stage
   * answers success at once, and no Unstage can get past the missing stash.
   */
  lemma TuneFaultStrandsMount(v: View, req: StageReq, env: StageEnv, next: StageEnv, undo: UnstageEnv)
    requires LeavesMount(v, req, env) && v.stash == NoFile
    requires env.mount == Ok && NeedsTune(req) && !env.tune && next.check == Answers
    ensures !Stage(v, req, env).1 && Stage(v, req, env).0.stash == NoFile
    ensures Stage(Stage(v, req, env).0, req, next) == (Stage(v, req, env).0, true)
    ensures !Unstage(Stage(v, req, env).0, undo).1
  {}

  /** That can happen to every volume that the API lists: on a connected node, with tune2fs asked for. */
  lemma TuneFaultHappens(lvolID: string, rs: seq<LvolConnectResp>, parent: string, blocks: string)
    returns (v: View, req: StageReq, env: StageEnv)
    requires rs != [] && blocks != ""
    ensures req.parent == parent
    ensures req.context == ControllerContext(map["tune2fs_reserved_blocks" := Plain(blocks)], VolumeInfo(lvolID, rs))
    ensures LeavesMount(v, req, env) && v.stash == NoFile && env.mount == Ok && NeedsTune(req) && !env.tune
  {
    var space := Itoa(rs[0].nsId);
    var down := TeardownEnv(true, true, [], []);
    req := TuneReq(lvolID, rs, parent, blocks);
    v := View(Absent, NoFile, Subsystem([NvmePath(Addr(rs[0].ip, rs[0].port), OPTIMIZED, "live")], [space]));
    env := StageEnv(Answers, ConnectEnv(true, None, [], [], 0, down, 0), Answers, Ok, Ok, false, Written,
                    DisconnectEnv(down, 0));
    TuneReqInitiator(lvolID, rs, parent, blocks);
    OwnMatch(space, [space]);
    LeavesMountExactly(v, req, env);
  }

  function TuneReq(lvolID: string, rs: seq<LvolConnectResp>, parent: string, blocks: string): StageReq
    requires rs != []
  {
    var params := map["tune2fs_reserved_blocks" := Plain(blocks)];
    StageReq(parent, ControllerContext(params, VolumeInfo(lvolID, rs)), MountCap("ext4", []), false)
  }

  lemma TuneReqInitiator(lvolID: string, rs: seq<LvolConnectResp>, parent: string, blocks: string)
    requires rs != [] && blocks != ""
    ensures var req := TuneReq(lvolID, rs, parent, blocks);
            && NeedsTune(req) && NewInitiator(StageContext(req)).Some?
            && NewInitiator(StageContext(req)).value.nsId == Plain(Itoa(rs[0].nsId))
  {
    var req := TuneReq(lvolID, rs, parent, blocks);
    ControllerInitiator(lvolID, rs, map["tune2fs_reserved_blocks" := Plain(blocks)]);
    StagedInitiator(req.context, parent, "");
    assert Lookup(StageContext(req), "tune2fs_reserved_blocks") == Plain(blocks);
  }

  // ---------- Volumes that share a subsystem ----------

  /** A call for another volume, with that volume's own mount point and stash at the time, or a change of exports. */
  datatype Event = Visit(job: Job, point: Point, stash: Stash) | Exports(spaces: seq<string>)

  /** The namespace that the call's initiator stands for, if it builds one. */
  function OwnSpace(e: Event): Option<string> {
    match e
    case Exports(_) => None
    case Visit(job, _, st) =>
      var init := match job.call
                  case StageCall(req, _) => NewInitiator(StageContext(req))
                  case UnstageCall(_, env) => StashedInitiator(st, env.readable)
                  case _ => None;
      match init
      case None => None
      case Some(i) => Some(Word(i.nsId))
  }

  function AfterEvent(sub: Subsystem, e: Event): Subsystem {
    match e
    case Exports(spaces) => sub.(spaces := spaces)
    case Visit(job, p, st) => Serve(job, View(p, st, sub)).0.sub
  }

  function AfterEvents(sub: Subsystem, es: seq<Event>): Subsystem
    decreases |es|
  {
    if es == [] then sub else AfterEvents(AfterEvent(sub, es[0]), es[1..])
  }

  /** In this run every visiting volume is another one than `kept`, and is exported when it visits. */
  ghost predicate OthersOnly(sub: Subsystem, es: seq<Event>, kept: string)
    decreases |es|
  {
    if es == [] then true
    else
      && (es[0].Exports? ==> kept in es[0].spaces)
      && (OwnSpace(es[0]).Some? ==> OwnSpace(es[0]).value != kept && OwnSpace(es[0]).value in sub.spaces)
      && OthersOnly(AfterEvent(sub, es[0]), es[1..], kept)
  }

  /** A call for an exported volume leaves a subsystem with another visible device entirely alone. */
  lemma VisitKeepsSubsystem(sub: Subsystem, e: Event, kept: string)
    requires kept in Visible(sub) && e.Visit?
    requires OwnSpace(e).Some? ==> OwnSpace(e).value != kept && OwnSpace(e).value in sub.spaces
    ensures AfterEvent(sub, e) == sub
  {
    if OwnSpace(e).Some? {
      var own := OwnSpace(e).value;
      var i :| 0 <= i < |sub.spaces| && sub.spaces[i] == kept;
      var j :| 0 <= j < |sub.spaces| && sub.spaces[j] == own;
      assert |Visible(sub)| > 1;
    }
  }

  /**
   * Whatever calls for other exported volumes of the subsystem do, with whatever faults, the device of
   * `kept` stays visible and no path is lost.
   */
  lemma {:induction false} SharedSubsystemSafe(sub: Subsystem, es: seq<Event>, kept: string)
    requires kept in Visible(sub) && OthersOnly(sub, es, kept)
    ensures kept in Visible(AfterEvents(sub, es))
    ensures AfterEvents(sub, es).paths == sub.paths
    decreases |es|
  {
    if es != [] {
      if es[0].Visit? {
        VisitKeepsSubsystem(sub, es[0], kept);
      }
      SharedSubsystemSafe(AfterEvent(sub, es[0]), es[1..], kept);
    }
  }

  /**
   * Without the own namespace exported it is different: an Unstage takes the last visible device of the
   * subsystem down although it belongs to another volume.
   */
  lemma UnstageOfVanishedVolume(v: View, env: UnstageEnv, other: string)
    requires Depth(v.point) <= 1 && QuietUnstage(env) && StashedInitiator(v.stash, true).Some?
    requires other in Visible(v.sub)
    ensures other !in Visible(Unstage(v, env).0.sub) <==> Visible(v.sub) == [other]
  {
    DeleteConverges(v.point, env.del, env.del);
    QuietDisconnectResult(v.sub, env.disc);
    assert |Visible(v.sub)| == 1 ==> Visible(v.sub) == [Visible(v.sub)[0]];
  }
}
