/**
 * The node calls cut into steps, each of which makes one outside call and touches one mount point, one
 * stash file or one subsystem. Run without interruption, the steps of a call do what the whole call does.
 */
module NodeSteps {
  import opened Strings
  import opened Contexts
  import opened PathSort
  import opened Nvme
  import opened NodeOps

  /** What a call does next. */
  datatype Pc =
    | Begin
    // connecting
    | Listing(init: Initiator)
    | Fetching(init: Initiator)
    | Dialing(init: Initiator, ips: seq<string>, i: nat, attempt: nat)
    | RollingBack(init: Initiator)
    | AwaitingDevice(init: Initiator)
    // mounting on the staging path
    | CheckingPoint(init: Initiator, device: string)
    | MakingDir(init: Initiator, device: string)
    | Mounting(init: Initiator, device: string)
    | Tuning(init: Initiator, device: string)
    | Writing(init: Initiator, device: string)
    // deleting a mount point
    | Unmounting
    | Erasing
    // disconnecting
    | Reading
    | Closing(init: Initiator)
    | Dropping(init: Initiator, order: seq<NvmePath>, k: nat, rollback: bool)
    | AwaitingGone(init: Initiator, listed: bool)
    | Cleaning
    // publishing
    | PubReading
    | PubMakingFile(source: string)
    | PubUnmaking
    | PubMakingDir
    | Binding(source: string)
    | Done(ok: bool)

  datatype Key = PointAt(path: string) | StashAt(parent: string) | SubAt(nqn: string) | Nowhere

  function PathOf(job: Job): string {
    match job.call
    case StageCall(req, _) => StagingTargetPath(req.parent, job.vol)
    case UnstageCall(parent, _) => StagingTargetPath(parent, job.vol)
    case PublishCall(req, _) => req.target
    case UnpublishCall(target, _) => target
  }

  function ParentOf(job: Job): string {
    match job.call
    case StageCall(req, _) => req.parent
    case UnstageCall(parent, _) => parent
    case PublishCall(req, _) => req.parent
    case UnpublishCall(_, _) => ""
  }

  /** The one thing the next step touches. */
  function KeyOf(job: Job, pc: Pc): Key {
    match pc
    case Begin => if job.call.PublishCall? && !job.call.preq.cap.MountCap? then Nowhere else PointAt(PathOf(job))
    case Listing(init) => SubAt(Word(init.nqn))
    case Dialing(init, _, _, _) => SubAt(Word(init.nqn))
    case RollingBack(init) => SubAt(Word(init.nqn))
    case AwaitingDevice(init) => SubAt(Word(init.nqn))
    case Closing(init) => SubAt(Word(init.nqn))
    case Dropping(init, _, _, _) => SubAt(Word(init.nqn))
    case AwaitingGone(init, _) => SubAt(Word(init.nqn))
    case Writing(_, _) => StashAt(ParentOf(job))
    case Reading => if job.call.UnpublishCall? then Nowhere else StashAt(ParentOf(job))
    case Cleaning => if job.call.UnpublishCall? then Nowhere else StashAt(ParentOf(job))
    case PubReading => if job.call.UnpublishCall? then Nowhere else StashAt(ParentOf(job))
    case Fetching(_) => Nowhere
    case Tuning(_, _) => Nowhere
    case Done(_) => Nowhere
    case _ => PointAt(PathOf(job))
  }

  // ---------- Steps on a mount point ----------

  /** After deleteMountPoint succeeded. */
  function Deleted(job: Job): Pc {
    if job.call.UnstageCall? then Reading else Done(true)
  }

  function BeginDelete(job: Job, p: Point, check: Check): Pc {
    match IsMountPoint(p, check)
    case NotExist => Deleted(job)
    case OtherError => Done(false)
    case CorruptedMnt => Unmounting
    case IsMount(mounted) => if mounted then Unmounting else Erasing
  }

  function StageStep(req: StageReq, env: StageEnv, pc: Pc, p: Point): (Pc, Point) {
    match pc
    case Begin =>
      (match IsMountPoint(p, env.check)
       case OtherError => (Done(false), p)
       case CorruptedMnt => (Done(true), p)
       case IsMount(true) => (Done(true), p)
       case _ =>
         match NewInitiator(StageContext(req))
         case None => (Done(false), p)
         case Some(init) => (Listing(init), p))
    case CheckingPoint(init, device) =>
      (match IsMountPoint(p, env.pointCheck)
       case NotExist => (MakingDir(init, device), p)
       case IsMount(mounted) => (if mounted then Writing(init, device) else Mounting(init, device), p)
       case _ => (Closing(init), p))
    case MakingDir(init, device) =>
      var (q, ok) := Make(p, env.mkdir);
      (if ok then Mounting(init, device) else Closing(init), q)
    case Mounting(init, device) =>
      (match StageEntry(req, device)
       case None => (Closing(init), p)
       case Some(e) =>
         var (q, ok) := MountOn(p, e, env.mount);
         (if !ok then Closing(init) else if NeedsTune(req) then Tuning(init, device) else Writing(init, device), q))
    case _ => (Done(false), p)
  }

  function DeleteStep(job: Job, env: DeleteEnv, pc: Pc, p: Point): (Pc, Point) {
    match pc
    case Begin => (BeginDelete(job, p, env.check), p)
    case Unmounting => var (q, ok) := Unmount(p, env.unmount); (if ok then Erasing else Done(false), q)
    case Erasing => var (q, ok) := Remove(p, env.remove); (if ok then Deleted(job) else Done(false), q)
    case _ => (Done(false), p)
  }

  function PublishStep(job: Job, req: PublishReq, env: PublishEnv, pc: Pc, p: Point): (Pc, Point) {
    var staging := StagingTargetPath(req.parent, job.vol);
    match pc
    case Begin =>
      (match IsMountPoint(p, env.check)
       case NotExist => (PubMakingDir, p)
       case IsMount(mounted) => (if mounted then Done(true) else Binding(staging), p)
       case _ => (Done(false), p))
    case PubMakingDir => var (q, ok) := Make(p, env.mkdir); (if ok then Binding(staging) else Done(false), q)
    case PubMakingFile(source) => var (q, ok) := Make(p, env.make); (if ok then Binding(source) else PubUnmaking, q)
    case PubUnmaking => (Done(false), if p == Absent then p else Remove(p, env.unmake).0)
    case Binding(source) => var (q, ok) := MountOn(p, BindEntry(req.cap, source), env.mount); (Done(ok), q)
    case _ => (Done(false), p)
  }

  function StepPoint(job: Job, pc: Pc, p: Point): (Pc, Point) {
    match job.call
    case StageCall(req, env) => StageStep(req, env, pc, p)
    case UnstageCall(_, env) => DeleteStep(job, env.del, pc, p)
    case PublishCall(req, env) => PublishStep(job, req, env, pc, p)
    case UnpublishCall(_, env) => DeleteStep(job, env, pc, p)
  }

  // ---------- Steps on a subsystem ----------

  /** The oracle of the call's Disconnect, which for Stage is the deferred rollback. */
  function DiscEnv(job: Job): DisconnectEnv {
    match job.call
    case StageCall(_, env) => env.undo
    case UnstageCall(_, env) => env.disc
    case _ => DisconnectEnv(TeardownEnv(true, true, [], []), 0)
  }

  function ConnEnv(job: Job): ConnectEnv {
    match job.call
    case StageCall(_, env) => env.connect
    case _ => ConnectEnv(true, None, [], [], 0, TeardownEnv(true, true, [], []), 0)
  }

  /** After Disconnect: Stage failed anyway, Unstage goes on to erase the stash. */
  function Disconnected(job: Job, ok: bool): Pc {
    if ok && job.call.UnstageCall? then Cleaning else Done(false)
  }

  function StartTeardown(job: Job, init: Initiator, s: Subsystem, env: TeardownEnv, rollback: bool): Pc {
    if !env.resolves || !env.lists then Done(false)
    else Dropping(init, SortSlice(s.paths, env.swaps), 0, rollback)
  }

  /** Where a connected Stage goes on. */
  function Connected(job: Job, init: Initiator, space: Option<string>): Pc {
    match space
    case None => Done(false)
    case Some(name) =>
      var device := DeviceOf(init, name);
      if job.call.StageCall? && job.call.sreq.cap == Block then Writing(init, device) else CheckingPoint(init, device)
  }

  function ConnectStep(job: Job, pc: Pc, s: Subsystem): (Pc, Subsystem) {
    var conn := ConnEnv(job);
    match pc
    case Listing(init) =>
      (if !conn.lists then Done(false) else if s.paths != [] then AwaitingDevice(init) else Fetching(init), s)
    case Dialing(init, ips, i, a) =>
      var n := |init.connections|;
      if i >= n then (AwaitingDevice(init), s)
      else if i >= |ips| then (Done(false), s)
      else if a >= n then (if i == 1 then RollingBack(init) else Done(false), s)
      else
        var (paths, ok) := TryOnce(s.paths, NewPath(init, ips, conn.roles, i), At(At(conn.tries, i, []), a, Ok));
        (if ok then Dialing(init, ips, i + 1, 0) else Dialing(init, ips, i, a + 1), s.(paths := paths))
    case RollingBack(init) =>
      (if Await(Word(init.nsId), s, conn.primaryLag).None? then Done(false)
       else StartTeardown(job, init, s, conn.rollback, true), s)
    case AwaitingDevice(init) =>
      (Connected(job, init, Await(Word(init.nsId), s, conn.lag)), s)
    case _ => (Done(false), s)
  }

  function DisconnectStep(job: Job, pc: Pc, s: Subsystem): (Pc, Subsystem) {
    var disc := DiscEnv(job);
    match pc
    case Closing(init) =>
      var n := |Visible(s)|;
      (if n > 1 then Disconnected(job, true)
       else if n == 1 then StartTeardown(job, init, s, disc.down, false)
       else AwaitingGone(init, false), s)
    case Dropping(init, order, k, rollback) =>
      if k >= |order| then (if rollback then Done(false) else AwaitingGone(init, true), s)
      else
        var cmds := if rollback then ConnEnv(job).rollback.cmds else disc.down.cmds;
        (Dropping(init, order, k + 1, rollback),
         s.(paths := DropPath(s.paths, order[k].addr, At(cmds, k, Ok))))
    case AwaitingGone(init, listed) => (Disconnected(job, Gone(s, listed, disc.lag)), s)
    case _ => (Done(false), s)
  }

  function StepSub(job: Job, pc: Pc, s: Subsystem): (Pc, Subsystem) {
    if pc.Closing? || pc.Dropping? || pc.AwaitingGone? then DisconnectStep(job, pc, s) else ConnectStep(job, pc, s)
  }

  // ---------- Steps on a stash file, and steps that touch nothing ----------

  function StepStash(job: Job, pc: Pc, st: Stash): (Pc, Stash) {
    match (job.call, pc)
    case (StageCall(req, env), Writing(init, device)) =>
      var (written, ok) := WriteStash(st, StagedContext(req.context, req.parent, device), env.write);
      (if ok then Done(true) else Closing(init), written)
    case (UnstageCall(_, env), Reading) =>
      (match StashedInitiator(st, env.readable)
       case None => (Done(false), st)
       case Some(init) => (Closing(init), st))
    case (UnstageCall(_, env), Cleaning) => var (cleaned, ok) := CleanStash(st, env.clean); (Done(ok), cleaned)
    case (PublishCall(_, env), PubReading) =>
      (match ReadStash(st, env.readable)
       case None => (Done(false), st)
       case Some(c) =>
         var device := Lookup(c, "devicePath");
         (if device == Plain("") then Done(false) else PubMakingFile(Word(device)), st))
    case _ => (Done(false), st)
  }

  function StepNowhere(job: Job, pc: Pc): Pc {
    match (job.call, pc)
    case (PublishCall(req, _), Begin) =>
      if req.cap == Block then PubReading else Binding(StagingTargetPath(req.parent, job.vol))
    case (StageCall(_, env), Fetching(init)) =>
      if env.connect.fetched.None? then Done(false) else Dialing(init, env.connect.fetched.value, 0, 0)
    case (StageCall(_, env), Tuning(init, device)) => if env.tune then Writing(init, device) else Closing(init)
    case _ => Done(false)
  }

  /** One step of a call, on what the call can see. */
  function Step(job: Job, pc: Pc, v: View): (Pc, View) {
    match KeyOf(job, pc)
    case PointAt(_) => var (next, p) := StepPoint(job, pc, v.point); (next, v.(point := p))
    case StashAt(_) => var (next, st) := StepStash(job, pc, v.stash); (next, v.(stash := st))
    case SubAt(_) => var (next, s) := StepSub(job, pc, v.sub); (next, v.(sub := s))
    case Nowhere => (StepNowhere(job, pc), v)
  }

  // ---------- Every call comes to an end ----------

  function Rank(pc: Pc): nat {
    match pc
    case Begin => 20
    case Listing(_) => 19
    case Fetching(_) => 18
    case Dialing(_, _, _, _) => 17
    case AwaitingDevice(_) => 15
    case CheckingPoint(_, _) => 14
    case MakingDir(_, _) => 13
    case Mounting(_, _) => 12
    case Tuning(_, _) => 11
    case Writing(_, _) => 10
    case Unmounting => 19
    case Erasing => 18
    case Reading => 17
    case RollingBack(_) => 9
    case Closing(_) => 9
    case Dropping(_, _, _, _) => 8
    case AwaitingGone(_, _) => 7
    case Cleaning => 6
    case PubReading => 19
    case PubMakingFile(_) => 18
    case PubUnmaking => 17
    case PubMakingDir => 19
    case Binding(_) => 16
    case Done(_) => 0
  }

  function Left(have: nat, all: nat): nat {
    if have < all then all - have else 0
  }

  /** Connections or paths still to go, and attempts for the current one. */
  function Minor(pc: Pc): nat {
    match pc
    case Dialing(init, _, i, _) => Left(i, |init.connections|)
    case Dropping(_, order, k, _) => Left(k, |order|)
    case _ => 0
  }

  function Attempts(pc: Pc): nat {
    match pc
    case Dialing(init, _, _, a) => Left(a, |init.connections|)
    case _ => 0
  }

  predicate Lower(next: Pc, pc: Pc) {
    || Rank(next) < Rank(pc)
    || (Rank(next) == Rank(pc) && Minor(next) < Minor(pc))
    || (Rank(next) == Rank(pc) && Minor(next) == Minor(pc) && Attempts(next) < Attempts(pc))
  }

  lemma StageStepLower(job: Job, pc: Pc, p: Point)
    requires job.call.StageCall? && KeyOf(job, pc).PointAt?
    ensures Lower(StageStep(job.call.sreq, job.call.senv, pc, p).0, pc)
  {}

  lemma DeleteStepLower(job: Job, env: DeleteEnv, pc: Pc, p: Point)
    requires !job.call.StageCall? && !job.call.PublishCall? && KeyOf(job, pc).PointAt?
    ensures Lower(DeleteStep(job, env, pc, p).0, pc)
  {}

  lemma PublishStepLower(job: Job, pc: Pc, p: Point)
    requires job.call.PublishCall? && KeyOf(job, pc).PointAt?
    ensures Lower(PublishStep(job, job.call.preq, job.call.penv, pc, p).0, pc)
  {}

  lemma StepPointLower(job: Job, pc: Pc, p: Point)
    requires KeyOf(job, pc).PointAt?
    ensures Lower(StepPoint(job, pc, p).0, pc)
  {
    match job.call {
      case StageCall(_, _) => StageStepLower(job, pc, p);
      case UnstageCall(_, env) => DeleteStepLower(job, env.del, pc, p);
      case PublishCall(_, _) => PublishStepLower(job, pc, p);
      case UnpublishCall(_, env) => DeleteStepLower(job, env, pc, p);
    }
  }

  lemma ConnectStepLower(job: Job, pc: Pc, s: Subsystem)
    requires pc.Listing? || pc.Dialing? || pc.RollingBack? || pc.AwaitingDevice?
    ensures Lower(ConnectStep(job, pc, s).0, pc)
  {}

  lemma DisconnectStepLower(job: Job, pc: Pc, s: Subsystem)
    requires pc.Closing? || pc.Dropping? || pc.AwaitingGone?
    ensures Lower(DisconnectStep(job, pc, s).0, pc)
  {
    match pc {
      case Closing(_) =>
      case Dropping(_, _, _, _) =>
      case AwaitingGone(_, _) =>
    }
  }

  lemma StepSubLower(job: Job, pc: Pc, s: Subsystem)
    requires KeyOf(job, pc).SubAt?
    ensures Lower(StepSub(job, pc, s).0, pc)
  {
    if pc.Closing? || pc.Dropping? || pc.AwaitingGone? {
      DisconnectStepLower(job, pc, s);
    } else {
      ConnectStepLower(job, pc, s);
    }
  }

  lemma StepStashLower(job: Job, pc: Pc, st: Stash)
    requires KeyOf(job, pc).StashAt?
    ensures Lower(StepStash(job, pc, st).0, pc)
  {}

  lemma StepNowhereLower(job: Job, pc: Pc)
    requires KeyOf(job, pc).Nowhere? && !pc.Done?
    ensures Lower(StepNowhere(job, pc), pc)
  {}

  lemma StepLower(job: Job, pc: Pc, v: View)
    requires !pc.Done?
    ensures Lower(Step(job, pc, v).0, pc)
  {
    match KeyOf(job, pc) {
      case PointAt(_) => StepPointLower(job, pc, v.point);
      case SubAt(_) => StepSubLower(job, pc, v.sub);
      case StashAt(_) => StepStashLower(job, pc, v.stash);
      case Nowhere => StepNowhereLower(job, pc);
    }
  }

  /** The call run on its own from `pc` to its end. */
  function Exec(job: Job, pc: Pc, v: View): (r: (Pc, View))
    ensures r.0.Done?
    decreases Rank(pc), Minor(pc), Attempts(pc)
  {
    if pc.Done? then (pc, v)
    else
      StepLower(job, pc, v);
      var (next, after) := Step(job, pc, v);
      Exec(job, next, after)
  }

  // ---------- The steps together are the whole call ----------

  lemma ExecOneDrop(job: Job, pc: Pc, v: View)
    requires pc.Dropping? && pc.k < |pc.order|
    ensures var cmds := if pc.rollback then ConnEnv(job).rollback.cmds else DiscEnv(job).down.cmds;
            var paths := DropPath(v.sub.paths, pc.order[pc.k].addr, At(cmds, pc.k, Ok));
            Exec(job, pc, v) == Exec(job, pc.(k := pc.k + 1), v.(sub := v.sub.(paths := paths)))
  {}

  lemma {:induction false} ExecDropping(job: Job, pc: Pc, v: View)
    requires pc.Dropping?
    ensures var cmds := if pc.rollback then ConnEnv(job).rollback.cmds else DiscEnv(job).down.cmds;
            var after := v.(sub := v.sub.(paths := DropFrom(v.sub.paths, pc.order, cmds, pc.k)));
            Exec(job, pc, v) == (if pc.rollback then (Done(false), after)
                                 else Exec(job, AwaitingGone(pc.init, true), after))
    decreases Left(pc.k, |pc.order|)
  {
    if pc.k < |pc.order| {
      var cmds := if pc.rollback then ConnEnv(job).rollback.cmds else DiscEnv(job).down.cmds;
      var paths := DropPath(v.sub.paths, pc.order[pc.k].addr, At(cmds, pc.k, Ok));
      ExecOneDrop(job, pc, v);
      ExecDropping(job, pc.(k := pc.k + 1), v.(sub := v.sub.(paths := paths)));
    } else {
      assert v.(sub := v.sub.(paths := v.sub.paths)) == v;
    }
  }

  lemma ExecGone(job: Job, init: Initiator, listed: bool, v: View)
    ensures Exec(job, AwaitingGone(init, listed), v)
         == Exec(job, Disconnected(job, Gone(v.sub, listed, DiscEnv(job).lag)), v)
  {
    assert v.(sub := v.sub) == v;
  }

  lemma ExecClosing(job: Job, init: Initiator, v: View)
    ensures var (down, ok) := Disconnect(v.sub, DiscEnv(job));
            Exec(job, Closing(init), v) == Exec(job, Disconnected(job, ok), v.(sub := down))
  {
    var disc := DiscEnv(job);
    var next := StepSub(job, Closing(init), v.sub).0;
    assert v.(sub := v.sub) == v;
    assert Exec(job, Closing(init), v) == Exec(job, next, v);
    if next.Dropping? {
      ExecDropping(job, next, v);
      ExecGone(job, init, true, v.(sub := DisconnectDevicePath(v.sub, disc.down).0));
    } else if next.AwaitingGone? {
      ExecGone(job, init, false, v);
    }
  }

  lemma ExecRollingBack(job: Job, init: Initiator, v: View)
    ensures Exec(job, RollingBack(init), v) == (Done(false), v.(sub := RollBackPrimary(init, v.sub, ConnEnv(job))))
  {
    var next := ConnectStep(job, RollingBack(init), v.sub).0;
    assert v.(sub := v.sub) == v;
    assert Exec(job, RollingBack(init), v) == Exec(job, next, v);
    if next.Dropping? {
      ExecDropping(job, next, v);
    }
  }

  lemma {:induction false} ExecAttempts(job: Job, init: Initiator, ips: seq<string>, i: nat, a: nat, v: View)
    requires i < |init.connections| && i < |ips|
    ensures var conn := ConnEnv(job);
            var path, outs := NewPath(init, ips, conn.roles, i), At(conn.tries, i, []);
            var (paths, ok) := TryFrom(v.sub.paths, path, outs, a, |init.connections|);
            var up := v.(sub := v.sub.(paths := paths));
            Exec(job, Dialing(init, ips, i, a), v) == (if ok then Exec(job, Dialing(init, ips, i + 1, 0), up)
                                                       else if i == 1 then Exec(job, RollingBack(init), up)
                                                       else (Done(false), up))
    decreases Left(a, |init.connections|)
  {
    var (next, after) := Step(job, Dialing(init, ips, i, a), v);
    if a < |init.connections| {
      if next == Dialing(init, ips, i, a + 1) {
        ExecAttempts(job, init, ips, i, a + 1, after);
      }
    } else {
      assert v.(sub := v.sub.(paths := v.sub.paths)) == v;
    }
  }

  lemma {:induction false} ExecDialing(job: Job, init: Initiator, ips: seq<string>, i: nat, v: View)
    ensures var (paths, end) := ConnectFrom(init, ConnEnv(job), ips, v.sub.paths, i);
            var up := v.(sub := v.sub.(paths := paths));
            Exec(job, Dialing(init, ips, i, 0), v) == (match end
                                                       case Complete => Exec(job, AwaitingDevice(init), up)
                                                       case Broken(1) => Exec(job, RollingBack(init), up)
                                                       case _ => (Done(false), up))
    decreases Left(i, |init.connections|)
  {
    assert v.(sub := v.sub.(paths := v.sub.paths)) == v;
    if i < |init.connections| && i < |ips| {
      ExecAttempts(job, init, ips, i, 0, v);
      var conn := ConnEnv(job);
      var path, outs := NewPath(init, ips, conn.roles, i), At(conn.tries, i, []);
      var (paths, ok) := TryFrom(v.sub.paths, path, outs, 0, |init.connections|);
      if ok {
        ExecDialing(job, init, ips, i + 1, v.(sub := v.sub.(paths := paths)));
      }
    }
  }

  lemma ExecAwaitingDevice(job: Job, init: Initiator, v: View)
    ensures Exec(job, AwaitingDevice(init), v)
         == Exec(job, Connected(job, init, Await(Word(init.nsId), v.sub, ConnEnv(job).lag)), v)
  {
    assert v.(sub := v.sub) == v;
  }

  lemma ExecListing(job: Job, init: Initiator, v: View)
    requires job.call.StageCall?
    ensures var (up, space) := Connect(init, v.sub, ConnEnv(job));
            Exec(job, Listing(init), v) == Exec(job, Connected(job, init, space), v.(sub := up))
  {
    var conn := ConnEnv(job);
    var next := StepSub(job, Listing(init), v.sub).0;
    assert v.(sub := v.sub) == v;
    assert Exec(job, Listing(init), v) == Exec(job, next, v);
    if next.AwaitingDevice? {
      ExecAwaitingDevice(job, init, v);
    } else if next.Fetching? && conn.fetched.Some? {
      var ips := conn.fetched.value;
      assert Exec(job, next, v) == Exec(job, Dialing(init, ips, 0, 0), v);
      ExecDialing(job, init, ips, 0, v);
      var (paths, end) := ConnectFrom(init, conn, ips, v.sub.paths, 0);
      var up := v.(sub := v.sub.(paths := paths));
      if end == Complete {
        ExecAwaitingDevice(job, init, up);
      } else if end == Broken(1) {
        ExecRollingBack(job, init, up);
      }
    }
  }

  function DeletePart(job: Job): DeleteEnv
    requires job.call.UnstageCall? || job.call.UnpublishCall?
  {
    match job.call
    case UnstageCall(_, env) => env.del
    case UnpublishCall(_, env) => env
  }

  lemma ExecErasing(job: Job, v: View)
    requires job.call.UnstageCall? || job.call.UnpublishCall?
    ensures var (p, ok) := Remove(v.point, DeletePart(job).remove);
            Exec(job, Erasing, v) == Exec(job, if ok then Deleted(job) else Done(false), v.(point := p))
  {}

  lemma ExecUnmounting(job: Job, v: View)
    requires job.call.UnstageCall? || job.call.UnpublishCall?
    ensures var (p, ok) := UnmountAndRemove(v.point, DeletePart(job));
            Exec(job, Unmounting, v) == Exec(job, if ok then Deleted(job) else Done(false), v.(point := p))
  {
    var (p, ok) := Unmount(v.point, DeletePart(job).unmount);
    if ok {
      ExecErasing(job, v.(point := p));
    }
  }

  lemma ExecDelete(job: Job, v: View)
    requires job.call.UnstageCall? || job.call.UnpublishCall?
    ensures var (p, ok) := DeleteMountPoint(v.point, DeletePart(job));
            Exec(job, Begin, v) == Exec(job, if ok then Deleted(job) else Done(false), v.(point := p))
  {
    assert v.(point := v.point) == v;
    var next := StepPoint(job, Begin, v.point).0;
    assert Exec(job, Begin, v) == Exec(job, next, v);
    ExecUnmounting(job, v);
    ExecErasing(job, v);
  }

  lemma ExecUnstage(job: Job, v: View)
    requires job.call.UnstageCall?
    ensures Exec(job, Begin, v) == (Done(Unstage(v, job.call.uenv).1), Unstage(v, job.call.uenv).0)
  {
    var env := job.call.uenv;
    ExecDelete(job, v);
    var (p, deleted) := DeleteMountPoint(v.point, env.del);
    if deleted {
      var w := v.(point := p);
      assert w.(stash := w.stash) == w;
      var next := StepStash(job, Reading, w.stash).0;
      assert Exec(job, Reading, w) == Exec(job, next, w);
      if next.Closing? {
        ExecClosing(job, next.init, w);
        var (down, gone) := Disconnect(w.sub, env.disc);
        if gone {
          ExecCleaning(job, w.(sub := down));
        }
      }
    }
  }

  lemma ExecCleaning(job: Job, v: View)
    requires job.call.UnstageCall?
    ensures var (st, ok) := CleanStash(v.stash, job.call.uenv.clean);
            Exec(job, Cleaning, v) == (Done(ok), v.(stash := st))
  {}

  lemma ExecCheckingPoint(job: Job, init: Initiator, device: string, v: View)
    requires job.call.StageCall? && job.call.sreq.cap != Block
    ensures var (p, ok) := StageMount(v.point, job.call.sreq, device, job.call.senv);
            Exec(job, CheckingPoint(init, device), v) == (
              Exec(job, if ok then Writing(init, device) else Closing(init), v.(point := p)))
  {
    assert v.(point := v.point) == v;
    var next := StepPoint(job, CheckingPoint(init, device), v.point).0;
    assert Exec(job, CheckingPoint(init, device), v) == Exec(job, next, v);
    if next.Mounting? {
      ExecMounting(job, init, device, v);
    } else if next.MakingDir? {
      var (q, ok) := Make(v.point, job.call.senv.mkdir);
      assert Exec(job, next, v) == Exec(job, if ok then Mounting(init, device) else Closing(init), v.(point := q));
      if ok {
        ExecMounting(job, init, device, v.(point := q));
      }
    }
  }

  lemma ExecMounting(job: Job, init: Initiator, device: string, v: View)
    requires job.call.StageCall?
    ensures var req, env := job.call.sreq, job.call.senv;
            Exec(job, Mounting(init, device), v) == (
              match StageEntry(req, device)
              case None => Exec(job, Closing(init), v)
              case Some(e) =>
                var (p, mounted) := MountOn(v.point, e, env.mount);
                var ok := mounted && (NeedsTune(req) ==> env.tune);
                Exec(job, if ok then Writing(init, device) else Closing(init), v.(point := p)))
  {
    assert v.(point := v.point) == v;
    var (next, p) := StepPoint(job, Mounting(init, device), v.point);
    assert Exec(job, Mounting(init, device), v) == Exec(job, next, v.(point := p));
    if next.Tuning? {
      assert Exec(job, next, v.(point := p)) == Exec(job, StepNowhere(job, next), v.(point := p));
    }
  }

  lemma ExecWriting(job: Job, init: Initiator, device: string, v: View)
    requires job.call.StageCall?
    ensures var req, env := job.call.sreq, job.call.senv;
            var (st, saved) := WriteStash(v.stash, StagedContext(req.context, req.parent, device), env.write);
            var w := v.(stash := st);
            Exec(job, Writing(init, device), v) == (
              (Done(saved), if saved then w else w.(sub := Disconnect(v.sub, env.undo).0)))
  {
    var req, env := job.call.sreq, job.call.senv;
    var (st, saved) := WriteStash(v.stash, StagedContext(req.context, req.parent, device), env.write);
    if !saved {
      ExecClosing(job, init, v.(stash := st));
    }
  }

  /** Stage from the point where its device is there. */
  lemma ExecConnected(job: Job, init: Initiator, space: string, v: View)
    requires job.call.StageCall?
    ensures var req, env := job.call.sreq, job.call.senv;
            var device := DeviceOf(init, space);
            var (p, ok) := StageMount(v.point, req, device, env);
            var (st, saved) := WriteStash(v.stash, StagedContext(req.context, req.parent, device), env.write);
            var down := Disconnect(v.sub, env.undo).0;
            Exec(job, Connected(job, init, Some(space)), v) == (
              if !ok then (Done(false), View(p, v.stash, down))
              else (Done(saved), View(p, st, if saved then v.sub else down)))
  {
    var req, env := job.call.sreq, job.call.senv;
    var device := DeviceOf(init, space);
    var (p, ok) := StageMount(v.point, req, device, env);
    if req.cap != Block {
      ExecCheckingPoint(job, init, device, v);
    } else {
      assert v.(point := p) == v;
    }
    if ok {
      ExecWriting(job, init, device, v.(point := p));
    } else {
      ExecClosing(job, init, v.(point := p));
    }
  }

  lemma ExecStage(job: Job, v: View)
    requires job.call.StageCall?
    ensures var r := Stage(v, job.call.sreq, job.call.senv); Exec(job, Begin, v) == (Done(r.1), r.0)
  {
    assert v.(point := v.point) == v;
    var next := StepPoint(job, Begin, v.point).0;
    assert Exec(job, Begin, v) == Exec(job, next, v);
    if next.Listing? {
      ExecListing(job, next.init, v);
      var (up, space) := Connect(next.init, v.sub, job.call.senv.connect);
      if space.Some? {
        ExecConnected(job, next.init, space.value, v.(sub := up));
      }
    }
  }

  lemma ExecBinding(job: Job, source: string, v: View)
    requires job.call.PublishCall?
    ensures var (p, ok) := MountOn(v.point, BindEntry(job.call.preq.cap, source), job.call.penv.mount);
            Exec(job, Binding(source), v) == (Done(ok), v.(point := p))
  {}

  lemma ExecPubMakingFile(job: Job, source: string, v: View)
    requires job.call.PublishCall?
    ensures var req, env := job.call.preq, job.call.penv;
            var (q, made) := Make(v.point, env.make);
            var (p, ok) := if made then MountOn(q, BindEntry(req.cap, source), env.mount)
                           else if q == Absent then (q, false)
                           else (Remove(q, env.unmake).0, false);
            Exec(job, PubMakingFile(source), v) == (Done(ok), v.(point := p))
  {
    var (q, made) := Make(v.point, job.call.penv.make);
    var w := v.(point := q);
    if made {
      ExecBinding(job, source, w);
    } else {
      assert Exec(job, PubUnmaking, w) == (Done(false), w.(point := StepPoint(job, PubUnmaking, q).1));
    }
  }

  lemma ExecPublishMount(job: Job, v: View)
    requires job.call.PublishCall? && job.call.preq.cap.MountCap?
    ensures var (p, ok) := Publish(v.point, v.stash, job.vol, job.call.preq, job.call.penv);
            Exec(job, Begin, v) == (Done(ok), v.(point := p))
  {
    assert v.(point := v.point) == v;
    var staging := StagingTargetPath(job.call.preq.parent, job.vol);
    var next := StepPoint(job, Begin, v.point).0;
    assert Exec(job, Begin, v) == Exec(job, next, v);
    if next.PubMakingDir? {
      var (q, ok) := Make(v.point, job.call.penv.mkdir);
      assert Exec(job, next, v) == Exec(job, if ok then Binding(staging) else Done(false), v.(point := q));
      ExecBinding(job, staging, v.(point := q));
    } else if next.Binding? {
      ExecBinding(job, staging, v);
    }
  }

  lemma ExecPublish(job: Job, v: View)
    requires job.call.PublishCall?
    ensures var (p, ok) := Publish(v.point, v.stash, job.vol, job.call.preq, job.call.penv);
            Exec(job, Begin, v) == (Done(ok), v.(point := p))
  {
    assert v.(point := v.point) == v && v.(stash := v.stash) == v;
    if job.call.preq.cap.MountCap? {
      ExecPublishMount(job, v);
    } else {
      var next := StepNowhere(job, Begin);
      assert Exec(job, Begin, v) == Exec(job, next, v);
      if next.PubReading? {
        var after := StepStash(job, next, v.stash).0;
        assert Exec(job, next, v) == Exec(job, after, v);
        if after.PubMakingFile? {
          ExecPubMakingFile(job, after.source, v);
        }
      } else {
        ExecBinding(job, next.source, v);
      }
    }
  }

  /** Uninterrupted, the steps of any call end in exactly the state and answer of the whole call. */
  lemma ExecIsServe(job: Job, v: View)
    ensures Exec(job, Begin, v) == (Done(Serve(job, v).1), Serve(job, v).0)
  {
    match job.call {
      case StageCall(_, _) => ExecStage(job, v);
      case UnstageCall(_, _) => ExecUnstage(job, v);
      case PublishCall(_, _) => ExecPublish(job, v);
      case UnpublishCall(_, _) => ExecDelete(job, v);
    }
  }
}
