/**
 * Safety of every interleaving of node calls, with faults at the outside calls and crashes of the whole
 * driver: mounts never stack, and a mounted staging target can always be unstaged later.
 */
module NodeCrash {
  import opened Strings
  import opened Contexts
  import opened PathSort
  import opened Nvme
  import opened NodeOps
  import opened NodeRuns
  import opened NodeSteps
  import opened NodeWorld
  import opened NodeSystem
  import opened Locks

  predicate Staging(job: Job) {
    job.call.StageCall? || job.call.UnstageCall?
  }

  /** Between the mount and the end of the stash write. */
  predicate InWindow(job: Job, pc: Pc) {
    job.call.StageCall? && job.call.sreq.cap != Block && (pc.Tuning? || pc.Writing?)
  }

  /** This Stage has no fault in its window. */
  predicate QuietWindow(job: Job) {
    job.call.StageCall? && job.call.sreq.cap != Block ==>
      && job.call.senv.mount != Late && job.call.senv.tune
      && (job.call.senv.write == Written || job.call.senv.write == WrittenLate)
  }

  predicate BeforeMount(pc: Pc) {
    || pc.Listing? || pc.Fetching? || pc.Dialing? || pc.RollingBack? || pc.AwaitingDevice? || pc.CheckingPoint?
    || pc.MakingDir?
  }

  predicate AtMount(pc: Pc) {
    pc.CheckingPoint? || pc.MakingDir? || pc.Mounting? || pc.Tuning?
  }

  /** What a call relies on at its mount point, between the step that looked and the step that acts. */
  predicate PcOk(job: Job, pc: Pc, p: Point) {
    match job.call
    case StageCall(req, _) =>
      && (InitOf(pc).Some? ==> NewInitiator(StageContext(req)).Some?)
      && (BeforeMount(pc) || (pc.Writing? && req.cap == Block) ==> !Mounted(p))
      && (pc.MakingDir? ==> p == Absent)
      && (pc.Mounting? ==> p == Present([]))
      && (AtMount(pc) ==> req.cap != Block)
      && (AtMount(pc) || pc.Writing? ==> pc.device != "")
    case UnstageCall(_, _) =>
      && !BeforeMount(pc) && !AtMount(pc) && !pc.Writing?
      && (pc.Reading? || pc.Closing? || pc.Dropping? || pc.AwaitingGone? || pc.Cleaning? ==> !Mounted(p))
    case PublishCall(req, _) =>
      req.cap.MountCap? ==>
        && !pc.PubReading? && !pc.PubMakingFile?
        && (pc.PubMakingDir? ==> p == Absent)
        && (pc.Binding? ==> p == Present([]))
    case UnpublishCall(_, _) => true
  }

  lemma StageStepOk(job: Job, pc: Pc, p: Point)
    requires PcOk(job, pc, p) && KeyOf(job, pc).PointAt? && job.call.StageCall?
    ensures var (next, q) := StageStep(job.call.sreq, job.call.senv, pc, p); PcOk(job, next, q)
  {}

  lemma PointStepOk(job: Job, pc: Pc, p: Point)
    requires PcOk(job, pc, p) && KeyOf(job, pc).PointAt?
    ensures var (next, q) := StepPoint(job, pc, p); PcOk(job, next, q)
  {
    if job.call.StageCall? {
      StageStepOk(job, pc, p);
    }
  }

  lemma ConnectStepOk(job: Job, pc: Pc, p: Point, s: Subsystem)
    requires PcOk(job, pc, p) && KeyOf(job, pc).SubAt? && !pc.Closing? && !pc.Dropping? && !pc.AwaitingGone?
    ensures PcOk(job, ConnectStep(job, pc, s).0, p)
  {
    if pc.AwaitingDevice? {
      ConnectedOk(job, pc.init, p, Await(Word(pc.init.nsId), s, ConnEnv(job).lag));
    }
  }

  lemma ConnectedOk(job: Job, init: Initiator, p: Point, space: Option<string>)
    requires PcOk(job, AwaitingDevice(init), p)
    ensures PcOk(job, Connected(job, init, space), p)
  {
    if space.Some? {
      assert DeviceOf(init, space.value)[0] == '/';
    }
  }

  lemma SubStepOk(job: Job, pc: Pc, p: Point, s: Subsystem)
    requires PcOk(job, pc, p) && KeyOf(job, pc).SubAt?
    ensures PcOk(job, StepSub(job, pc, s).0, p)
  {
    if !pc.Closing? && !pc.Dropping? && !pc.AwaitingGone? {
      ConnectStepOk(job, pc, p, s);
    }
  }

  lemma StashStepOk(job: Job, pc: Pc, p: Point, st: Stash)
    requires PcOk(job, pc, p) && KeyOf(job, pc).StashAt?
    ensures PcOk(job, StepStash(job, pc, st).0, p)
  {
    StashStepInit(job, pc, st);
  }

  lemma PointStepDepth(job: Job, pc: Pc, p: Point)
    requires PcOk(job, pc, p) && KeyOf(job, pc).PointAt? && Depth(p) <= 1
    requires job.call.PublishCall? ==> job.call.preq.cap.MountCap?
    ensures Depth(StepPoint(job, pc, p).1) <= 1
  {}

  /** The staging target and the stash of one volume are in order, as far as its own call tells. */
  predicate Kept(job: Job, pc: Pc, p: Point, st: Stash) {
    Mounted(p) ==> Recoverable(st) || InWindow(job, pc)
  }

  lemma StageStepKept(job: Job, pc: Pc, p: Point, st: Stash)
    requires job.call.StageCall? && QuietWindow(job) && PcOk(job, pc, p) && Kept(job, pc, p, st)
    requires KeyOf(job, pc).PointAt?
    ensures var (next, q) := StageStep(job.call.sreq, job.call.senv, pc, p); Kept(job, next, q, st)
  {}

  lemma PointStepKept(job: Job, pc: Pc, p: Point, st: Stash)
    requires Staging(job) && QuietWindow(job) && PcOk(job, pc, p) && Kept(job, pc, p, st)
    requires KeyOf(job, pc).PointAt?
    ensures var (next, q) := StepPoint(job, pc, p); Kept(job, next, q, st)
  {
    if job.call.StageCall? {
      StageStepKept(job, pc, p, st);
    }
  }

  lemma SubStepKept(job: Job, pc: Pc, p: Point, st: Stash, s: Subsystem)
    requires Staging(job) && PcOk(job, pc, p) && Kept(job, pc, p, st)
    requires KeyOf(job, pc).SubAt?
    ensures Kept(job, StepSub(job, pc, s).0, p, st)
  {}

  lemma StashStepKept(job: Job, pc: Pc, p: Point, st: Stash)
    requires Staging(job) && QuietWindow(job) && PcOk(job, pc, p) && Kept(job, pc, p, st)
    requires KeyOf(job, pc).StashAt?
    ensures var (next, after) := StepStash(job, pc, st); Kept(job, next, p, after)
  {
    if pc.Writing? && job.call.StageCall? {
      var req := job.call.sreq;
      var staged := StagedContext(req.context, req.parent, pc.device);
      StashRoundTrip(staged);
      StagedInitiator(req.context, req.parent, pc.device);
    }
  }

  // ---------- The whole node ----------

  /** A staging target is not also a publish target. */
  ghost predicate RolesApart(jobs: seq<Job>) {
    forall t, u | 0 <= t < |jobs| && 0 <= u < |jobs| && Staging(jobs[t]) && !Staging(jobs[u]) ::
      PathOf(jobs[t]) != PathOf(jobs[u])
  }

  /** Only mount-mode calls publish on this path. */
  ghost predicate MountModeOnly(jobs: seq<Job>, path: string) {
    forall u | 0 <= u < |jobs| && jobs[u].call.PublishCall? && PathOf(jobs[u]) == path ::
      jobs[u].call.preq.cap.MountCap?
  }

  ghost predicate Shallow(jobs: seq<Job>, w: World) {
    forall t | 0 <= t < |jobs| && MountModeOnly(jobs, PathOf(jobs[t])) :: Depth(w.PointIn(PathOf(jobs[t]))) <= 1
  }

  predicate ActsOn(s: Sys, jobs: seq<Job>, u: nat, path: string)
    requires |s.pcs| == |s.locks.phases| == |jobs| && u < |jobs|
  {
    s.locks.phases[u].Holding? && InWindow(jobs[u], s.pcs[u]) && PathOf(jobs[u]) == path
  }

  /** Every mounted staging target has a good stash, or its call is just about to write it. */
  ghost predicate StashesKept(jobs: seq<Job>, s: Sys)
    requires |s.pcs| == |s.locks.phases| == |jobs|
  {
    forall t | 0 <= t < |jobs| && Staging(jobs[t]) && Mounted(s.world.PointIn(PathOf(jobs[t]))) ::
      || Recoverable(s.world.StashIn(ParentOf(jobs[t])))
      || exists u | 0 <= u < |jobs| :: ActsOn(s, jobs, u, PathOf(jobs[t]))
  }

  ghost predicate Base(h: Homes, jobs: seq<Job>, s: Sys) {
    && |s.pcs| == |jobs|
    && Inv(s.locks, Vols(jobs))
    && (forall t | 0 <= t < |jobs| :: HomeFits(h, jobs[t]))
    && (forall t | 0 <= t < |jobs| && (s.locks.phases[t].Idle? || s.locks.phases[t].Waiting?) :: s.pcs[t] == Begin)
  }

  ghost predicate PcsOk(jobs: seq<Job>, s: Sys)
    requires |s.pcs| == |s.locks.phases| == |jobs|
  {
    forall t | 0 <= t < |jobs| && s.locks.phases[t].Holding? ::
      PcOk(jobs[t], s.pcs[t], s.world.PointIn(PathOf(jobs[t])))
  }

  ghost predicate Safe(h: Homes, jobs: seq<Job>, s: Sys) {
    Base(h, jobs, s) && PcsOk(jobs, s) && Shallow(jobs, s.world) && StashesKept(jobs, s)
  }

  /** The driver dies: every call under way is gone, and the locks with it. */
  function Crash(s: Sys): Sys {
    var phases := seq(|s.locks.phases|, t requires 0 <= t < |s.locks.phases| =>
                      if s.locks.phases[t].Idle? then Idle else Finished);
    s.(locks := LockState(map[], map[], phases))
  }

  datatype Event = Steps(t: nat) | Crashes

  function After(jobs: seq<Job>, s: Sys, e: Event): (r: Sys)
    requires |s.pcs| == |s.locks.phases| == |jobs|
    ensures |r.pcs| == |r.locks.phases| == |jobs|
  {
    match e
    case Steps(t) => NodeSystem.Move(jobs, s, t)
    case Crashes => Crash(s)
  }

  ghost predicate NoneInWindow(jobs: seq<Job>, s: Sys)
    requires |s.pcs| == |s.locks.phases| == |jobs|
  {
    forall u | 0 <= u < |jobs| && s.locks.phases[u].Holding? :: !InWindow(jobs[u], s.pcs[u])
  }

  function RunWithCrashes(jobs: seq<Job>, s: Sys, es: seq<Event>): (r: Sys)
    requires |s.pcs| == |s.locks.phases| == |jobs|
    ensures |r.pcs| == |r.locks.phases| == |jobs|
    decreases |es|
  {
    if es == [] then s else RunWithCrashes(jobs, After(jobs, s, es[0]), es[1..])
  }

  /** No crash of this run hits a window. */
  ghost predicate CalmCrashes(jobs: seq<Job>, s: Sys, es: seq<Event>)
    requires |s.pcs| == |s.locks.phases| == |jobs|
    decreases |es|
  {
    if es == [] then true
    else (es[0].Crashes? ==> NoneInWindow(jobs, s)) && CalmCrashes(jobs, After(jobs, s, es[0]), es[1..])
  }

  // ---------- One step keeps it all ----------

  /** Two calls for different volumes have nothing in common that either could change. */
  lemma OtherUntouched(h: Homes, f: Job, fpc: Pc, g: Job, w: World)
    requires HomeFits(h, f) && HomeFits(h, g) && f.vol != g.vol
    ensures StepIn(f, fpc, w).1.PointIn(PathOf(g)) == w.PointIn(PathOf(g))
    ensures !g.call.UnpublishCall? ==> StepIn(f, fpc, w).1.StashIn(ParentOf(g)) == w.StashIn(ParentOf(g))
  {}

  /** Within one volume, staging calls share the staging directory exactly when they share the target. */
  lemma SameHome(f: Job, g: Job)
    requires Staging(f) && Staging(g) && f.vol == g.vol
    ensures PathOf(f) == PathOf(g) <==> ParentOf(f) == ParentOf(g)
  {
    if PathOf(f) == PathOf(g) {
      assert PathOf(f)[..|ParentOf(f)|] == ParentOf(f);
      assert PathOf(g)[..|ParentOf(g)|] == ParentOf(g);
    }
  }

  lemma OwnStep(job: Job, pc: Pc, w: World)
    requires !pc.Done? && PcOk(job, pc, w.PointIn(PathOf(job)))
    ensures var (next, after) := StepIn(job, pc, w); PcOk(job, next, after.PointIn(PathOf(job)))
  {
    var p := w.PointIn(PathOf(job));
    match KeyOf(job, pc) {
      case PointAt(path) => PointStepOk(job, pc, p);
      case SubAt(n) => SubStepOk(job, pc, p, w.SubIn(n));
      case StashAt(parent) => StashStepOk(job, pc, p, w.StashIn(parent));
      case Nowhere =>
    }
  }

  lemma OwnKept(job: Job, pc: Pc, w: World)
    requires !pc.Done? && PcOk(job, pc, w.PointIn(PathOf(job))) && Staging(job) && QuietWindow(job)
    requires Kept(job, pc, w.PointIn(PathOf(job)), w.StashIn(ParentOf(job)))
    ensures var (next, after) := StepIn(job, pc, w);
            Kept(job, next, after.PointIn(PathOf(job)), after.StashIn(ParentOf(job)))
  {
    var p, st := w.PointIn(PathOf(job)), w.StashIn(ParentOf(job));
    match KeyOf(job, pc) {
      case PointAt(path) => PointStepKept(job, pc, p, st);
      case SubAt(n) => SubStepKept(job, pc, p, st, w.SubIn(n));
      case StashAt(parent) => StashStepKept(job, pc, p, st);
      case Nowhere =>
    }
  }

  lemma StepPcs(h: Homes, jobs: seq<Job>, s: Sys, t: nat)
    requires Base(h, jobs, s) && PcsOk(jobs, s) && t < |jobs|
    requires s.locks.phases[t].Holding? && !s.pcs[t].Done?
    ensures PcsOk(jobs, NodeSystem.Move(jobs, s, t))
  {
    var r := NodeSystem.Move(jobs, s, t);
    OwnStep(jobs[t], s.pcs[t], s.world);
    forall u | 0 <= u < |jobs| && u != t && r.locks.phases[u].Holding?
      ensures PcOk(jobs[u], r.pcs[u], r.world.PointIn(PathOf(jobs[u])))
    {
      HoldersApart(jobs, s, t, u);
      OtherUntouched(h, jobs[t], s.pcs[t], jobs[u], s.world);
    }
  }

  lemma HoldersApart(jobs: seq<Job>, s: Sys, t: nat, u: nat)
    requires Inv(s.locks, Vols(jobs)) && t < |jobs| && u < |jobs| && t != u
    requires s.locks.phases[t].Holding? && s.locks.phases[u].Holding?
    ensures jobs[t].vol != jobs[u].vol
  {
    if Vols(jobs)[t] == Vols(jobs)[u] {
      MutualExclusion(s.locks, Vols(jobs), t, u);
    }
  }

  lemma StepShallow(h: Homes, jobs: seq<Job>, s: Sys, t: nat)
    requires Base(h, jobs, s) && PcsOk(jobs, s) && Shallow(jobs, s.world) && t < |jobs|
    requires s.locks.phases[t].Holding? && !s.pcs[t].Done?
    ensures Shallow(jobs, NodeSystem.Move(jobs, s, t).world)
  {
    var job, pc := jobs[t], s.pcs[t];
    var after := NodeSystem.Move(jobs, s, t).world;
    var p := s.world.PointIn(PathOf(job));
    forall u | 0 <= u < |jobs| && MountModeOnly(jobs, PathOf(jobs[u]))
      ensures Depth(after.PointIn(PathOf(jobs[u]))) <= 1
    {
      if PathOf(jobs[u]) == PathOf(job) {
        assert Depth(p) <= 1 && (job.call.PublishCall? ==> job.call.preq.cap.MountCap?);
        OwnDepth(job, pc, s.world);
      } else {
        OtherPoint(job, pc, s.world, PathOf(jobs[u]));
      }
    }
  }

  lemma OwnDepth(job: Job, pc: Pc, w: World)
    requires PcOk(job, pc, w.PointIn(PathOf(job))) && Depth(w.PointIn(PathOf(job))) <= 1
    requires job.call.PublishCall? ==> job.call.preq.cap.MountCap?
    ensures Depth(StepIn(job, pc, w).1.PointIn(PathOf(job))) <= 1
  {
    if KeyOf(job, pc).PointAt? {
      PointStepDepth(job, pc, w.PointIn(PathOf(job)));
    }
  }

  lemma OtherPoint(job: Job, pc: Pc, w: World, path: string)
    requires path != PathOf(job)
    ensures StepIn(job, pc, w).1.PointIn(path) == w.PointIn(path)
  {}

  lemma OtherStash(job: Job, pc: Pc, w: World, parent: string)
    requires parent != ParentOf(job) || !Staging(job)
    ensures StepIn(job, pc, w).1.StashIn(parent) == w.StashIn(parent)
  {}

  lemma StepStashes(h: Homes, jobs: seq<Job>, s: Sys, t: nat)
    requires Base(h, jobs, s) && PcsOk(jobs, s) && StashesKept(jobs, s) && t < |jobs|
    requires RolesApart(jobs) && QuietWindow(jobs[t])
    requires s.locks.phases[t].Holding? && !s.pcs[t].Done?
    ensures StashesKept(jobs, NodeSystem.Move(jobs, s, t))
  {
    var r := NodeSystem.Move(jobs, s, t);
    forall v | 0 <= v < |jobs| && Staging(jobs[v]) && Mounted(r.world.PointIn(PathOf(jobs[v])))
      ensures Recoverable(r.world.StashIn(ParentOf(jobs[v])))
           || exists u | 0 <= u < |jobs| :: ActsOn(r, jobs, u, PathOf(jobs[v]))
    {
      if Staging(jobs[t]) && PathOf(jobs[v]) == PathOf(jobs[t]) {
        assert jobs[v].vol == jobs[t].vol;
        KeptBefore(h, jobs, s, t);
        OwnTarget(jobs, s, t, v);
      } else {
        OtherTarget(h, jobs, s, t, v);
      }
    }
  }

  lemma ActorIsHolder(h: Homes, jobs: seq<Job>, s: Sys, t: nat, u: nat)
    requires |s.pcs| == |s.locks.phases| == |jobs| && t < |jobs| && u < |jobs|
    requires Inv(s.locks, Vols(jobs)) && HomeFits(h, jobs[t]) && HomeFits(h, jobs[u])
    requires s.locks.phases[t].Holding? && ActsOn(s, jobs, u, PathOf(jobs[t]))
    ensures u == t
  {
    if u != t {
      HoldersApart(jobs, s, t, u);
    }
  }

  lemma KeptBefore(h: Homes, jobs: seq<Job>, s: Sys, t: nat)
    requires |s.pcs| == |s.locks.phases| == |jobs| && t < |jobs| && Inv(s.locks, Vols(jobs))
    requires StashesKept(jobs, s) && (forall u | 0 <= u < |jobs| :: HomeFits(h, jobs[u]))
    requires s.locks.phases[t].Holding? && Staging(jobs[t])
    ensures Kept(jobs[t], s.pcs[t], s.world.PointIn(PathOf(jobs[t])), s.world.StashIn(ParentOf(jobs[t])))
  {
    var job := jobs[t];
    if Mounted(s.world.PointIn(PathOf(job))) && !Recoverable(s.world.StashIn(ParentOf(job))) {
      var u :| 0 <= u < |jobs| && ActsOn(s, jobs, u, PathOf(job));
      ActorIsHolder(h, jobs, s, t, u);
    }
  }

  /** The target of the stepping call itself. */
  lemma OwnTarget(jobs: seq<Job>, s: Sys, t: nat, v: nat)
    requires |s.pcs| == |s.locks.phases| == |jobs| && t < |jobs| && v < |jobs|
    requires s.locks.phases[t].Holding? && !s.pcs[t].Done? && QuietWindow(jobs[t])
    requires PcOk(jobs[t], s.pcs[t], s.world.PointIn(PathOf(jobs[t])))
    requires Kept(jobs[t], s.pcs[t], s.world.PointIn(PathOf(jobs[t])), s.world.StashIn(ParentOf(jobs[t])))
    requires Staging(jobs[t]) && Staging(jobs[v]) && PathOf(jobs[v]) == PathOf(jobs[t]) && jobs[v].vol == jobs[t].vol
    ensures var r := NodeSystem.Move(jobs, s, t);
            Mounted(r.world.PointIn(PathOf(jobs[v]))) ==>
              Recoverable(r.world.StashIn(ParentOf(jobs[v]))) || ActsOn(r, jobs, t, PathOf(jobs[v]))
  {
    SameHome(jobs[v], jobs[t]);
    OwnKept(jobs[t], s.pcs[t], s.world);
  }

  /** Any other target: neither it nor its stash changes, and whoever acts on it goes on doing so. */
  lemma OtherTarget(h: Homes, jobs: seq<Job>, s: Sys, t: nat, v: nat)
    requires |s.pcs| == |s.locks.phases| == |jobs|
    requires StashesKept(jobs, s) && t < |jobs| && v < |jobs| && HomeFits(h, jobs[t]) && HomeFits(h, jobs[v])
    requires s.locks.phases[t].Holding? && !s.pcs[t].Done? && RolesApart(jobs)
    requires Staging(jobs[v]) && !(Staging(jobs[t]) && PathOf(jobs[v]) == PathOf(jobs[t]))
    ensures var r := NodeSystem.Move(jobs, s, t);
            Mounted(r.world.PointIn(PathOf(jobs[v]))) ==>
              || Recoverable(r.world.StashIn(ParentOf(jobs[v])))
              || exists u | 0 <= u < |jobs| :: ActsOn(r, jobs, u, PathOf(jobs[v]))
  {
    OtherHome(h, jobs[t], s.pcs[t], jobs[v], s.world);
    ActorStays(jobs, s, t, PathOf(jobs[v]));
  }

  lemma OtherHome(h: Homes, f: Job, fpc: Pc, g: Job, w: World)
    requires HomeFits(h, f) && HomeFits(h, g) && Staging(g) && PathOf(f) != PathOf(g)
    ensures StepIn(f, fpc, w).1.PointIn(PathOf(g)) == w.PointIn(PathOf(g))
    ensures StepIn(f, fpc, w).1.StashIn(ParentOf(g)) == w.StashIn(ParentOf(g))
  {
    OtherPoint(f, fpc, w, PathOf(g));
    if Staging(f) && f.vol == g.vol {
      SameHome(f, g);
    }
    OtherStash(f, fpc, w, ParentOf(g));
  }

  lemma ActorStays(jobs: seq<Job>, s: Sys, t: nat, path: string)
    requires |s.pcs| == |s.locks.phases| == |jobs| && t < |jobs| && PathOf(jobs[t]) != path
    requires s.locks.phases[t].Holding? && !s.pcs[t].Done?
    ensures (exists u | 0 <= u < |jobs| :: ActsOn(s, jobs, u, path)) ==>
              exists u | 0 <= u < |jobs| :: ActsOn(NodeSystem.Move(jobs, s, t), jobs, u, path)
  {
    if exists u | 0 <= u < |jobs| :: ActsOn(s, jobs, u, path) {
      var u :| 0 <= u < |jobs| && ActsOn(s, jobs, u, path);
      assert ActsOn(NodeSystem.Move(jobs, s, t), jobs, u, path);
    }
  }

  lemma StepBase(h: Homes, jobs: seq<Job>, s: Sys, t: nat)
    requires Base(h, jobs, s) && t < |jobs|
    ensures Base(h, jobs, NodeSystem.Move(jobs, s, t))
  {
    if !(s.locks.phases[t].Holding? && !s.pcs[t].Done?) {
      LockStepWorld(jobs, s, t);
      LockStepLocks(jobs, s, t);
    }
  }

  lemma LockStepLocks(jobs: seq<Job>, s: Sys, t: nat)
    requires |s.pcs| == |s.locks.phases| == |jobs| && t < |jobs| && Inv(s.locks, Vols(jobs))
    requires !(s.locks.phases[t].Holding? && !s.pcs[t].Done?)
    ensures var r := NodeSystem.Move(jobs, s, t);
            && Inv(r.locks, Vols(jobs))
            && (forall u | 0 <= u < |jobs| && (r.locks.phases[u].Idle? || r.locks.phases[u].Waiting?) ::
                  s.locks.phases[u].Idle? || s.locks.phases[u].Waiting?)
  {
    StepInv(s.locks, Vols(jobs), t);
  }

  /** Steps that only concern the locks. */
  lemma LockStepSafe(h: Homes, jobs: seq<Job>, s: Sys, t: nat)
    requires Safe(h, jobs, s) && t < |jobs|
    requires !(s.locks.phases[t].Holding? && !s.pcs[t].Done?)
    ensures Safe(h, jobs, NodeSystem.Move(jobs, s, t))
  {
    StepBase(h, jobs, s, t);
    LockStepPcs(jobs, s, t);
    LockStepStashes(jobs, s, t);
  }

  lemma LockStepPcs(jobs: seq<Job>, s: Sys, t: nat)
    requires |s.pcs| == |s.locks.phases| == |jobs| && PcsOk(jobs, s) && t < |jobs|
    requires s.locks.phases[t].Waiting? ==> s.pcs[t] == Begin
    requires !(s.locks.phases[t].Holding? && !s.pcs[t].Done?)
    ensures PcsOk(jobs, NodeSystem.Move(jobs, s, t))
  {
    LockStepWorld(jobs, s, t);
    BeginOk(jobs[t], s.world.PointIn(PathOf(jobs[t])));
  }

  lemma BeginOk(job: Job, p: Point)
    ensures PcOk(job, Begin, p)
  {}

  lemma LockStepStashes(jobs: seq<Job>, s: Sys, t: nat)
    requires |s.pcs| == |s.locks.phases| == |jobs| && StashesKept(jobs, s) && t < |jobs|
    requires !(s.locks.phases[t].Holding? && !s.pcs[t].Done?)
    ensures StashesKept(jobs, NodeSystem.Move(jobs, s, t))
  {
    var r := NodeSystem.Move(jobs, s, t);
    forall v | 0 <= v < |jobs| && Staging(jobs[v]) && Mounted(s.world.PointIn(PathOf(jobs[v])))
            && !Recoverable(s.world.StashIn(ParentOf(jobs[v])))
      ensures exists u | 0 <= u < |jobs| :: ActsOn(r, jobs, u, PathOf(jobs[v]))
    {
      var u :| 0 <= u < |jobs| && ActsOn(s, jobs, u, PathOf(jobs[v]));
      LockStepActor(jobs, s, t, u, PathOf(jobs[v]));
    }
    LockStepWorld(jobs, s, t);
  }

  lemma LockStepWorld(jobs: seq<Job>, s: Sys, t: nat)
    requires |s.pcs| == |s.locks.phases| == |jobs| && t < |jobs|
    requires !(s.locks.phases[t].Holding? && !s.pcs[t].Done?)
    ensures NodeSystem.Move(jobs, s, t).world == s.world && NodeSystem.Move(jobs, s, t).pcs == s.pcs
  {}

  lemma LockStepActor(jobs: seq<Job>, s: Sys, t: nat, u: nat, path: string)
    requires |s.pcs| == |s.locks.phases| == |jobs| && t < |jobs| && u < |jobs|
    requires !(s.locks.phases[t].Holding? && !s.pcs[t].Done?)
    requires ActsOn(s, jobs, u, path)
    ensures ActsOn(NodeSystem.Move(jobs, s, t), jobs, u, path)
  {}

  lemma CrashSafe(h: Homes, jobs: seq<Job>, s: Sys)
    requires Safe(h, jobs, s) && NoneInWindow(jobs, s)
    ensures Safe(h, jobs, Crash(s))
  {
    var r := Crash(s);
    forall v | 0 <= v < |jobs| && Staging(jobs[v]) && Mounted(r.world.PointIn(PathOf(jobs[v])))
      ensures Recoverable(r.world.StashIn(ParentOf(jobs[v])))
    {
      forall u | 0 <= u < |jobs| ensures !ActsOn(s, jobs, u, PathOf(jobs[v])) {}
    }
  }

  /**
   * In every run of any number of concurrent calls, with faults everywhere but in a Stage's window and
   * crashes at every other time: mount-mode targets and staging targets carry at most one mount, and at
   * every moment a mounted staging target has a stash that names its device and rebuilds its initiator,
   * unless its Stage is just writing it.
   */
  lemma {:induction false} SafeInEveryRun(h: Homes, jobs: seq<Job>, s: Sys, es: seq<Event>)
    requires Safe(h, jobs, s) && RolesApart(jobs) && (forall t | 0 <= t < |jobs| :: QuietWindow(jobs[t]))
    requires CalmCrashes(jobs, s, es)
    ensures Safe(h, jobs, RunWithCrashes(jobs, s, es))
    decreases |es|
  {
    if es != [] {
      match es[0] {
        case Crashes => CrashSafe(h, jobs, s);
        case Steps(t) =>
          if t < |jobs| {
            if s.locks.phases[t].Holding? && !s.pcs[t].Done? {
              StepBase(h, jobs, s, t);
              StepPcs(h, jobs, s, t);
              StepShallow(h, jobs, s, t);
              StepStashes(h, jobs, s, t);
            } else {
              LockStepSafe(h, jobs, s, t);
            }
          }
      }
      SafeInEveryRun(h, jobs, After(jobs, s, es[0]), es[1..]);
    }
  }

  /** The start of such a run: no call yet, and whatever is mounted is in order. */
  lemma StartSafe(h: Homes, jobs: seq<Job>, w: World)
    requires (forall t | 0 <= t < |jobs| :: HomeFits(h, jobs[t])) && Shallow(jobs, w)
    requires forall t | 0 <= t < |jobs| && Staging(jobs[t]) && Mounted(w.PointIn(PathOf(jobs[t]))) ::
               Recoverable(w.StashIn(ParentOf(jobs[t])))
    ensures Safe(h, jobs, Init(jobs, w))
  {
    StartInv(Vols(jobs));
  }

  /** Whenever no call is in its window, a later Unstage can rebuild the initiator of every mounted target. */
  lemma UnstageCanRebuild(h: Homes, jobs: seq<Job>, s: Sys, t: nat)
    requires Safe(h, jobs, s) && NoneInWindow(jobs, s) && t < |jobs| && Staging(jobs[t])
    requires Mounted(s.world.PointIn(PathOf(jobs[t])))
    ensures StashedInitiator(s.world.StashIn(ParentOf(jobs[t])), true).Some?
  {
    forall u | 0 <= u < |jobs| ensures !ActsOn(s, jobs, u, PathOf(jobs[t])) {}
  }
}
