/**
 * The state of a node: all mount points, all stash files, all subsystems. A call sees three of them; two
 * calls whose next steps touch different things commute.
 */
module NodeWorld {
  import opened Strings
  import opened Contexts
  import opened PathSort
  import opened Nvme
  import opened NodeOps
  import opened NodeSteps
  import opened Tables

  datatype World = World(points: map<string, Point>, stashes: map<string, Stash>, subs: map<string, Subsystem>) {
    function PointIn(path: string): Point {
      Get(points, path, Absent)
    }
    function StashIn(parent: string): Stash {
      Get(stashes, parent, NoFile)
    }
    function SubIn(nqn: string): Subsystem {
      Get(subs, nqn, NO_SUBSYSTEM)
    }
    function WithPoint(path: string, p: Point): World {
      this.(points := Put(points, path, Absent, p))
    }
    function WithStash(parent: string, st: Stash): World {
      this.(stashes := Put(stashes, parent, NoFile, st))
    }
    function WithSub(nqn: string, s: Subsystem): World {
      this.(subs := Put(subs, nqn, NO_SUBSYSTEM, s))
    }
    ghost predicate Valid() {
      Lean(points, Absent) && Lean(stashes, NoFile) && Lean(subs, NO_SUBSYSTEM)
    }
  }

  /** One step of a call on the whole node. */
  function StepIn(job: Job, pc: Pc, w: World): (Pc, World) {
    match KeyOf(job, pc)
    case PointAt(path) => var (next, p) := StepPoint(job, pc, w.PointIn(path)); (next, w.WithPoint(path, p))
    case StashAt(parent) => var (next, st) := StepStash(job, pc, w.StashIn(parent)); (next, w.WithStash(parent, st))
    case SubAt(nqn) => var (next, s) := StepSub(job, pc, w.SubIn(nqn)); (next, w.WithSub(nqn, s))
    case Nowhere => (StepNowhere(job, pc), w)
  }

  lemma StepInLower(job: Job, pc: Pc, w: World)
    requires !pc.Done?
    ensures Lower(StepIn(job, pc, w).0, pc)
  {
    match KeyOf(job, pc) {
      case PointAt(path) => StepPointLower(job, pc, w.PointIn(path));
      case SubAt(nqn) => StepSubLower(job, pc, w.SubIn(nqn));
      case StashAt(parent) => StepStashLower(job, pc, w.StashIn(parent));
      case Nowhere => StepNowhereLower(job, pc);
    }
  }

  function ExecIn(job: Job, pc: Pc, w: World): (r: (Pc, World))
    ensures r.0.Done?
    decreases Rank(pc), Minor(pc), Attempts(pc)
  {
    if pc.Done? then (pc, w)
    else
      StepInLower(job, pc, w);
      var (next, after) := StepIn(job, pc, w);
      ExecIn(job, next, after)
  }

  // ---------- A whole call on the node ----------

  function InitOf(pc: Pc): Option<Initiator> {
    match pc
    case Listing(init) => Some(init)
    case Fetching(init) => Some(init)
    case Dialing(init, _, _, _) => Some(init)
    case RollingBack(init) => Some(init)
    case AwaitingDevice(init) => Some(init)
    case CheckingPoint(init, _) => Some(init)
    case MakingDir(init, _) => Some(init)
    case Mounting(init, _) => Some(init)
    case Tuning(init, _) => Some(init)
    case Writing(init, _) => Some(init)
    case Closing(init) => Some(init)
    case Dropping(init, _, _, _) => Some(init)
    case AwaitingGone(init, _) => Some(init)
    case _ => None
  }

  /** The initiator a call is going to build, from its request or from the stash. */
  function PlannedInit(job: Job, w: World): Option<Initiator> {
    match job.call
    case StageCall(req, _) => NewInitiator(StageContext(req))
    case UnstageCall(parent, env) => StashedInitiator(w.StashIn(parent), env.readable)
    case _ => None
  }

  function NqnOf(init: Option<Initiator>): string {
    match init
    case None => ""
    case Some(i) => Word(i.nqn)
  }

  function ViewOf(job: Job, w: World, nqn: string): View {
    View(w.PointIn(PathOf(job)), w.StashIn(ParentOf(job)), w.SubIn(nqn))
  }

  function WithView(job: Job, w: World, nqn: string, v: View): World {
    w.WithPoint(PathOf(job), v.point).WithStash(ParentOf(job), v.stash).WithSub(nqn, v.sub)
  }

  function ServeIn(job: Job, w: World): (World, bool) {
    var nqn := NqnOf(PlannedInit(job, w));
    var (v, ok) := Serve(job, ViewOf(job, w, nqn));
    (WithView(job, w, nqn, v), ok)
  }

  lemma StepInValid(job: Job, pc: Pc, w: World)
    requires w.Valid()
    ensures StepIn(job, pc, w).1.Valid()
  {}

  /** The subsystem that the call's remaining steps can touch. */
  ghost predicate Aims(job: Job, pc: Pc, w: World, nqn: string) {
    if InitOf(pc).Some? then NqnOf(InitOf(pc)) == nqn
    else PlannedInit(job, w).Some? && !pc.Cleaning? && !pc.Done? ==> NqnOf(PlannedInit(job, w)) == nqn
  }

  lemma StepAims(job: Job, pc: Pc, w: World, nqn: string)
    requires Aims(job, pc, w, nqn) && !pc.Done?
    ensures Aims(job, StepIn(job, pc, w).0, StepIn(job, pc, w).1, nqn)
  {
    match KeyOf(job, pc) {
      case PointAt(path) => PointStepInit(job, pc, w.PointIn(path));
      case SubAt(n) => SubStepInit(job, pc, w.SubIn(n));
      case StashAt(parent) => StashStepInit(job, pc, w.StashIn(parent));
      case Nowhere =>
    }
  }

  lemma PointStepInit(job: Job, pc: Pc, p: Point)
    requires KeyOf(job, pc).PointAt?
    ensures var next := StepPoint(job, pc, p).0;
            && (InitOf(pc).Some? && InitOf(next).Some? ==> InitOf(next) == InitOf(pc))
            && (InitOf(pc).None? && InitOf(next).Some? ==>
                  job.call.StageCall? && InitOf(next) == NewInitiator(StageContext(job.call.sreq)))
            && (InitOf(next).None? ==> next.Done? || InitOf(pc).None?)
            && !next.Cleaning?
  {}

  lemma SubStepInit(job: Job, pc: Pc, s: Subsystem)
    requires KeyOf(job, pc).SubAt?
    ensures var next := StepSub(job, pc, s).0;
            && (InitOf(next).Some? ==> InitOf(next) == InitOf(pc))
            && (InitOf(next).None? ==> next.Done? || next.Cleaning?)
  {}

  lemma StashStepInit(job: Job, pc: Pc, st: Stash)
    requires KeyOf(job, pc).StashAt?
    ensures var (next, after) := StepStash(job, pc, st);
            && (InitOf(pc).Some? && InitOf(next).Some? ==> InitOf(next) == InitOf(pc))
            && (InitOf(pc).None? && InitOf(next).Some? ==>
                  job.call.UnstageCall? && InitOf(next) == StashedInitiator(st, job.call.uenv.readable))
            && (InitOf(next).None? ==> next.Done? || next.PubMakingFile?)
            && (after != st ==> pc.Writing? || pc.Cleaning?)
            && !next.Cleaning?
            && (next.PubMakingFile? ==> job.call.PublishCall? && after == st)
  {}

  /** Running a call's steps on the node is running them on what the call sees. */
  lemma {:induction false} ExecInView(job: Job, pc: Pc, w: World, nqn: string)
    requires w.Valid() && Aims(job, pc, w, nqn)
    ensures var (end, v) := Exec(job, pc, ViewOf(job, w, nqn));
            ExecIn(job, pc, w) == (end, WithView(job, w, nqn, v))
    decreases Rank(pc), Minor(pc), Attempts(pc)
  {
    if !pc.Done? {
      var (next, after) := StepIn(job, pc, w);
      StepInLower(job, pc, w);
      StepInValid(job, pc, w);
      StepAims(job, pc, w, nqn);
      ExecInView(job, next, after, nqn);
      StepInView(job, pc, w, nqn);
      var v := Exec(job, next, ViewOf(job, after, nqn)).1;
      WithViewAfterStep(job, pc, w, nqn, v);
    } else {
      assert WithView(job, w, nqn, ViewOf(job, w, nqn)) == w;
    }
  }

  lemma StepInView(job: Job, pc: Pc, w: World, nqn: string)
    requires w.Valid() && Aims(job, pc, w, nqn) && !pc.Done?
    ensures var (next, v) := Step(job, pc, ViewOf(job, w, nqn));
            StepIn(job, pc, w).0 == next && ViewOf(job, StepIn(job, pc, w).1, nqn) == v
  {
    assert KeyOf(job, pc).SubAt? ==> KeyOf(job, pc).nqn == NqnOf(InitOf(pc));
  }

  /** Setting the whole view forgets what one of its parts was set to before. */
  lemma WithViewForgets(job: Job, w: World, nqn: string, v: View, p: Point, st: Stash, s: Subsystem)
    requires w.Valid()
    ensures WithView(job, w.WithPoint(PathOf(job), p), nqn, v) == WithView(job, w, nqn, v)
    ensures WithView(job, w.WithStash(ParentOf(job), st), nqn, v) == WithView(job, w, nqn, v)
    ensures WithView(job, w.WithSub(nqn, s), nqn, v) == WithView(job, w, nqn, v)
  {
    PutPut(w.points, PathOf(job), Absent, p, v.point);
    PutPut(w.stashes, ParentOf(job), NoFile, st, v.stash);
    PutPut(w.subs, nqn, NO_SUBSYSTEM, s, v.sub);
  }

  lemma WithViewAfterStep(job: Job, pc: Pc, w: World, nqn: string, v: View)
    requires w.Valid() && Aims(job, pc, w, nqn) && !pc.Done?
    ensures WithView(job, StepIn(job, pc, w).1, nqn, v) == WithView(job, w, nqn, v)
  {
    var p := StepPoint(job, pc, w.PointIn(PathOf(job))).1;
    var st := StepStash(job, pc, w.StashIn(ParentOf(job))).1;
    var s := StepSub(job, pc, w.SubIn(nqn)).1;
    WithViewForgets(job, w, nqn, v, p, st, s);
    assert KeyOf(job, pc).SubAt? ==> KeyOf(job, pc).nqn == NqnOf(InitOf(pc));
    assert KeyOf(job, pc).PointAt? ==> StepIn(job, pc, w).1 == w.WithPoint(PathOf(job), p);
    assert KeyOf(job, pc).StashAt? ==> StepIn(job, pc, w).1 == w.WithStash(ParentOf(job), st);
    assert KeyOf(job, pc).SubAt? ==> StepIn(job, pc, w).1 == w.WithSub(nqn, s);
  }

  lemma ExecInIsServe(job: Job, w: World)
    requires w.Valid()
    ensures ExecIn(job, Begin, w) == (Done(ServeIn(job, w).1), ServeIn(job, w).0)
  {
    var nqn := NqnOf(PlannedInit(job, w));
    ExecInView(job, Begin, w, nqn);
    ExecIsServe(job, ViewOf(job, w, nqn));
  }

  // ---------- Steps that touch different things ----------

  predicate Apart(k: Key, j: Key) {
    k != j || k.Nowhere?
  }

  /** The node after a step set the thing at `k`; every step has this form. */
  function Written(w: World, k: Key, v: View): World {
    match k
    case PointAt(path) => w.WithPoint(path, v.point)
    case StashAt(parent) => w.WithStash(parent, v.stash)
    case SubAt(nqn) => w.WithSub(nqn, v.sub)
    case Nowhere => w
  }

  function Seen(w: World, k: Key): View {
    match k
    case PointAt(path) => View(w.PointIn(path), NoFile, NO_SUBSYSTEM)
    case StashAt(parent) => View(Absent, w.StashIn(parent), NO_SUBSYSTEM)
    case SubAt(nqn) => View(Absent, NoFile, w.SubIn(nqn))
    case Nowhere => View(Absent, NoFile, NO_SUBSYSTEM)
  }

  lemma WritesCommute(w: World, k: Key, j: Key, a: View, b: View)
    requires Apart(k, j)
    ensures Written(Written(w, k, a), j, b) == Written(Written(w, j, b), k, a)
    ensures Seen(Written(w, k, a), j) == Seen(w, j)
  {
    match (k, j) {
      case (PointAt(p), PointAt(q)) => PutCommutes(w.points, p, q, Absent, a.point, b.point);
      case (StashAt(p), StashAt(q)) => PutCommutes(w.stashes, p, q, NoFile, a.stash, b.stash);
      case (SubAt(p), SubAt(q)) => PutCommutes(w.subs, p, q, NO_SUBSYSTEM, a.sub, b.sub);
      case _ =>
    }
  }

  lemma StepInWrites(job: Job, pc: Pc, w: World)
    ensures var k := KeyOf(job, pc);
            var (next, v) := Step(job, pc, Seen(w, k));
            StepIn(job, pc, w) == (next, Written(w, k, v))
  {}

  lemma StepsCommute(f: Job, fpc: Pc, g: Job, gpc: Pc, w: World)
    requires Apart(KeyOf(f, fpc), KeyOf(g, gpc))
    ensures var (fnext, fw) := StepIn(f, fpc, w);
            var (gnext, gw) := StepIn(g, gpc, w);
            && StepIn(f, fpc, gw).0 == fnext && StepIn(g, gpc, fw).0 == gnext
            && StepIn(f, fpc, gw).1 == StepIn(g, gpc, fw).1
  {
    var k, j := KeyOf(f, fpc), KeyOf(g, gpc);
    var a, b := Step(f, fpc, Seen(w, k)).1, Step(g, gpc, Seen(w, j)).1;
    StepInWrites(f, fpc, w);
    StepInWrites(g, gpc, w);
    StepInWrites(f, fpc, Written(w, j, b));
    StepInWrites(g, gpc, Written(w, k, a));
    WritesCommute(w, k, j, a, b);
    WritesCommute(w, j, k, b, a);
  }
}
