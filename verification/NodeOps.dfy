/**
 * The four volume calls of the node service, on the three things one call can see: a mount point, the
 * stash file of the staging directory, and the subsystem of the volume.
 */
module NodeOps {
  import opened Strings
  import opened Contexts
  import opened PathSort
  import opened Nvme

  datatype Entry = Entry(source: string, fsType: string, flags: seq<string>)

  /** A path of the file system with what is mounted on it, bottom first. */
  datatype Point = Absent | Present(mounts: seq<Entry>)

  /** The stash file; an interrupted write leaves something that does not decode. */
  datatype Stash = NoFile | Torn | Saved(data: Json)

  datatype View = View(point: Point, stash: Stash, sub: Subsystem)

  // ---------- Outside calls ----------

  datatype Check = Answers | Corrupt | Fails
  datatype Answer = NotExist | CorruptedMnt | OtherError | IsMount(mounted: bool)
  datatype WriteOutcome = Written | Unwritten | WrittenLate | TornWrite

  predicate Mounted(p: Point) {
    p.Present? && p.mounts != []
  }

  function Depth(p: Point): nat {
    if p.Present? then |p.mounts| else 0
  }

  function Effect<T>(o: Outcome, before: T, after: T): T {
    if o == Lost then before else after
  }

  /** Only something mounted can turn out to be a corrupted mount. */
  function IsMountPoint(p: Point, c: Check): Answer {
    if c == Fails then OtherError
    else if p == Absent then NotExist
    else if c == Corrupt && Mounted(p) then CorruptedMnt
    else IsMount(Mounted(p))
  }

  /** Creating a directory or a file that may exist. */
  function Make(p: Point, o: Outcome): (Point, bool) {
    (if p == Absent then Effect(o, p, Present([])) else p, o == Ok)
  }

  function MountOn(p: Point, e: Entry, o: Outcome): (Point, bool) {
    if p == Absent then (p, false) else (Effect(o, p, Present(p.mounts + [e])), o == Ok)
  }

  function Unmount(p: Point, o: Outcome): (Point, bool) {
    if !Mounted(p) then (p, false) else (Effect(o, p, Present(p.mounts[..|p.mounts| - 1])), o == Ok)
  }

  /** A path that still has something mounted on it cannot be removed. */
  function Remove(p: Point, o: Outcome): (Point, bool) {
    if Mounted(p) then (p, false) else (Effect(o, p, Absent), o == Ok)
  }

  function WriteStash(st: Stash, c: Context, o: WriteOutcome): (Stash, bool) {
    match o
    case Written => (Saved(EncodeContext(c)), true)
    case Unwritten => (st, false)
    case WrittenLate => (Saved(EncodeContext(c)), false)
    case TornWrite => (Torn, false)
  }

  /** LookupVolumeContext; `readable` tells whether the file can be read. */
  function ReadStash(st: Stash, readable: bool): Option<Context> {
    if readable && st.Saved? then ConvertInterfaceToMap(st.data) else None
  }

  function CleanStash(st: Stash, o: Outcome): (Stash, bool) {
    if st == NoFile then (st, false) else (Effect(o, st, NoFile), o == Ok)
  }

  // ---------- Requests and oracles ----------

  datatype Capability = Block | MountCap(fsType: string, flags: seq<string>) | NoCapability

  datatype StageReq = StageReq(parent: string, context: Context, cap: Capability, readOnly: bool)

  datatype StageEnv = StageEnv(
    check: Check, connect: ConnectEnv, pointCheck: Check, mkdir: Outcome, mount: Outcome,
    tune: bool, write: WriteOutcome, undo: DisconnectEnv)

  datatype DeleteEnv = DeleteEnv(check: Check, unmount: Outcome, remove: Outcome)

  datatype UnstageEnv = UnstageEnv(del: DeleteEnv, readable: bool, disc: DisconnectEnv, clean: Outcome)

  datatype PublishReq = PublishReq(parent: string, target: string, cap: Capability)

  datatype PublishEnv = PublishEnv(
    readable: bool, make: Outcome, unmake: Outcome, check: Check, mkdir: Outcome, mount: Outcome)

  datatype Call =
    | StageCall(sreq: StageReq, senv: StageEnv)
    | UnstageCall(parent: string, uenv: UnstageEnv)
    | PublishCall(preq: PublishReq, penv: PublishEnv)
    | UnpublishCall(target: string, del: DeleteEnv)

  datatype Job = Job(vol: string, call: Call)

  function StagingTargetPath(parent: string, vol: string): string {
    parent + "/" + vol
  }

  // ---------- Stage ----------

  /** The context from which Stage builds its initiator. */
  function StageContext(req: StageReq): Context {
    req.context["stagingParentPath" := Plain(req.parent)]
  }

  function FsType(cap: Capability): string {
    if cap.MountCap? && cap.fsType != "" then cap.fsType else "ext4"
  }

  /** What gets mounted on the staging path; an xfs volume needs a number of data chunks to format. */
  function StageEntry(req: StageReq, device: string): Option<Entry> {
    var fs := FsType(req.cap);
    var flags := if req.cap.MountCap? then req.cap.flags else [];
    if fs == "xfs" && AtoiText(Lookup(StageContext(req), "distr_ndcs")).None? then None
    else
      Some(Entry(device, fs, flags + (if fs == "xfs" then ["nouuid"] else []) + (if req.readOnly then ["ro"] else [])))
  }

  predicate NeedsTune(req: StageReq) {
    FsType(req.cap) == "ext4" && Lookup(StageContext(req), "tune2fs_reserved_blocks") != Plain("")
  }

  function DeviceOf(init: Initiator, space: string): string {
    DeviceLink(Word(init.model), space)
  }

  /** createMountPoint, and whether the path was a mount point already; none for an error. */
  function CreateMountPoint(p: Point, check: Check, mkdir: Outcome): (Point, Option<bool>) {
    match IsMountPoint(p, check)
    case NotExist => var (q, ok) := Make(p, mkdir); (q, if ok then Some(false) else None)
    case IsMount(b) => (p, Some(b))
    case _ => (p, None)
  }

  /** stageVolume */
  function StageMount(p: Point, req: StageReq, device: string, env: StageEnv): (Point, bool) {
    if req.cap == Block then (p, true)
    else
      var (q, mounted) := CreateMountPoint(p, env.pointCheck, env.mkdir);
      if mounted.None? then (q, false)
      else if mounted.value then (q, true)
      else
        match StageEntry(req, device)
        case None => (q, false)
        case Some(e) =>
          var (r, ok) := MountOn(q, e, env.mount);
          (r, ok && (NeedsTune(req) ==> env.tune))
  }

  function Stage(v: View, req: StageReq, env: StageEnv): (View, bool) {
    match IsMountPoint(v.point, env.check)
    case OtherError => (v, false)
    case CorruptedMnt => (v, true)
    case IsMount(true) => (v, true)
    case _ =>
      match NewInitiator(StageContext(req))
      case None => (v, false)
      case Some(init) =>
        var (up, space) := Connect(init, v.sub, env.connect);
        if space.None? then (v.(sub := up), false)
        else
          var device := DeviceOf(init, space.value);
          var (p, ok) := StageMount(v.point, req, device, env);
          if !ok then (View(p, v.stash, Disconnect(up, env.undo).0), false)
          else
            var (st, saved) := WriteStash(v.stash, StagedContext(req.context, req.parent, device), env.write);
            (View(p, st, if saved then up else Disconnect(up, env.undo).0), saved)
  }

  // ---------- Unstage, Publish, Unpublish ----------

  function UnmountAndRemove(p: Point, env: DeleteEnv): (Point, bool) {
    var (q, ok) := Unmount(p, env.unmount);
    if ok then Remove(q, env.remove) else (q, false)
  }

  /** deleteMountPoint */
  function DeleteMountPoint(p: Point, env: DeleteEnv): (Point, bool) {
    match IsMountPoint(p, env.check)
    case NotExist => (p, true)
    case OtherError => (p, false)
    case CorruptedMnt => UnmountAndRemove(p, env)
    case IsMount(true) => UnmountAndRemove(p, env)
    case IsMount(false) => Remove(p, env.remove)
  }

  /** The initiator that Unstage builds from the stash. */
  function StashedInitiator(st: Stash, readable: bool): Option<Initiator> {
    match ReadStash(st, readable)
    case None => None
    case Some(c) => NewInitiator(c)
  }

  function Unstage(v: View, env: UnstageEnv): (View, bool) {
    var (p, deleted) := DeleteMountPoint(v.point, env.del);
    if !deleted then (v.(point := p), false)
    else
      match StashedInitiator(v.stash, env.readable)
      case None => (v.(point := p), false)
      case Some(init) =>
        var (down, gone) := Disconnect(v.sub, env.disc);
        if !gone then (View(p, v.stash, down), false)
        else
          var (st, ok) := CleanStash(v.stash, env.clean);
          (View(p, st, down), ok)
  }

  function BindEntry(cap: Capability, source: string): Entry {
    if cap.MountCap? then Entry(source, cap.fsType, cap.flags + ["bind"]) else Entry(source, "", ["bind"])
  }

  function Publish(p: Point, st: Stash, vol: string, req: PublishReq, env: PublishEnv): (Point, bool) {
    match req.cap
    case Block =>
      (match ReadStash(st, env.readable)
       case None => (p, false)
       case Some(c) =>
         var device := Lookup(c, "devicePath");
         if device == Plain("") then (p, false)
         else
           var (q, made) := Make(p, env.make);
           if made then MountOn(q, BindEntry(req.cap, Word(device)), env.mount)
           else if q == Absent then (q, false)
           else (Remove(q, env.unmake).0, false))
    case MountCap(_, _) =>
      var (q, mounted) := CreateMountPoint(p, env.check, env.mkdir);
      if mounted.None? then (q, false)
      else if mounted.value then (q, true)
      else MountOn(q, BindEntry(req.cap, StagingTargetPath(req.parent, vol)), env.mount)
    case NoCapability => MountOn(p, BindEntry(req.cap, StagingTargetPath(req.parent, vol)), env.mount)
  }

  /** A whole call. */
  function Serve(job: Job, v: View): (View, bool) {
    match job.call
    case StageCall(req, env) => Stage(v, req, env)
    case UnstageCall(_, env) => Unstage(v, env)
    case PublishCall(req, env) =>
      var (p, ok) := Publish(v.point, v.stash, job.vol, req, env);
      (v.(point := p), ok)
    case UnpublishCall(_, env) =>
      var (p, ok) := DeleteMountPoint(v.point, env);
      (v.(point := p), ok)
  }
}
