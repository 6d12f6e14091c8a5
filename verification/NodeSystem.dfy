/**
 * Any number of node calls at once, each holding its volume's lock from its first step to its last:
 * every interleaving has the effect of running the calls one after another.
 */
module NodeSystem {
  import opened Strings
  import opened Contexts
  import opened PathSort
  import opened Nvme
  import opened NodeOps
  import opened NodeSteps
  import opened NodeWorld
  import opened Locks

  /** Which volume owns a path or a staging directory. */
  datatype Homes = Homes(paths: map<string, string>, parents: map<string, string>)

  /** Who owns what: every path, staging directory and NQN belongs to one volume. */
  datatype Layout = Layout(homes: Homes, nqns: map<string, string>)

  predicate Owns(owners: map<string, string>, name: string, vol: string) {
    name in owners && owners[name] == vol
  }

  /** The call names only paths and staging directories of its own volume. */
  predicate HomeFits(h: Homes, job: Job) {
    && Owns(h.paths, PathOf(job), job.vol)
    && (!job.call.UnpublishCall? ==> Owns(h.parents, ParentOf(job), job.vol))
  }

  predicate InitFits(l: Layout, init: Option<Initiator>, vol: string) {
    init.Some? ==> Owns(l.nqns, Word(init.value.nqn), vol)
  }

  /** The call names only things of its own volume, its subsystem included. */
  predicate JobFits(l: Layout, job: Job) {
    && HomeFits(l.homes, job)
    && (job.call.StageCall? ==> InitFits(l, NewInitiator(StageContext(job.call.sreq)), job.vol))
  }

  predicate PcFits(l: Layout, job: Job, pc: Pc) {
    InitFits(l, InitOf(pc), job.vol) && (pc.Writing? ==> job.call.StageCall?)
  }

  /** Every stash that is there already names an NQN of the volume whose staging directory it lies in. */
  ghost predicate WorldFits(l: Layout, w: World) {
    && w.Valid()
    && forall parent | parent in l.homes.parents ::
         InitFits(l, StashedInitiator(w.StashIn(parent), true), l.homes.parents[parent])
  }

  lemma KeysApart(l: Layout, f: Job, fpc: Pc, g: Job, gpc: Pc)
    requires JobFits(l, f) && JobFits(l, g) && PcFits(l, f, fpc) && PcFits(l, g, gpc) && f.vol != g.vol
    ensures Apart(KeyOf(f, fpc), KeyOf(g, gpc))
  {
    KeyOwned(l, f, fpc);
    KeyOwned(l, g, gpc);
  }

  lemma KeyOwned(l: Layout, job: Job, pc: Pc)
    requires JobFits(l, job) && PcFits(l, job, pc)
    ensures match KeyOf(job, pc)
            case PointAt(path) => Owns(l.homes.paths, path, job.vol)
            case StashAt(parent) => Owns(l.homes.parents, parent, job.vol)
            case SubAt(nqn) => Owns(l.nqns, nqn, job.vol)
            case Nowhere => true
  {}

  /** The initiator a call works with stays one of its own volume. */
  lemma StepPcFits(l: Layout, job: Job, pc: Pc, w: World)
    requires JobFits(l, job) && PcFits(l, job, pc) && WorldFits(l, w) && !pc.Done?
    ensures PcFits(l, job, StepIn(job, pc, w).0)
  {
    match KeyOf(job, pc) {
      case PointAt(path) => PointStepFits(l, job, pc, w.PointIn(path));
      case SubAt(n) => SubStepFits(l, job, pc, w.SubIn(n));
      case StashAt(parent) =>
        StashStepFits(l, job, pc, w.StashIn(parent));
      case Nowhere =>
    }
  }

  lemma PointStepFits(l: Layout, job: Job, pc: Pc, p: Point)
    requires JobFits(l, job) && PcFits(l, job, pc) && KeyOf(job, pc).PointAt?
    ensures PcFits(l, job, StepPoint(job, pc, p).0)
  {
    PointStepInit(job, pc, p);
    PointStepWriting(job, pc, p);
  }

  lemma SubStepFits(l: Layout, job: Job, pc: Pc, s: Subsystem)
    requires PcFits(l, job, pc) && KeyOf(job, pc).SubAt?
    ensures PcFits(l, job, StepSub(job, pc, s).0)
  {
    SubStepInit(job, pc, s);
    SubStepWriting(job, pc, s);
  }

  lemma WithStashFits(l: Layout, w: World, parent: string, st: Stash)
    requires WorldFits(l, w) && parent in l.homes.parents
    requires InitFits(l, StashedInitiator(st, true), l.homes.parents[parent])
    ensures forall p | p in l.homes.parents ::
              InitFits(l, StashedInitiator(w.WithStash(parent, st).StashIn(p), true), l.homes.parents[p])
  {}

  lemma StepWorldFits(l: Layout, job: Job, pc: Pc, w: World)
    requires JobFits(l, job) && PcFits(l, job, pc) && WorldFits(l, w) && !pc.Done?
    ensures WorldFits(l, StepIn(job, pc, w).1)
  {
    StepInValid(job, pc, w);
    if KeyOf(job, pc).StashAt? {
      StashStepFits(l, job, pc, w.StashIn(ParentOf(job)));
      WithStashFits(l, w, ParentOf(job), StepStash(job, pc, w.StashIn(ParentOf(job))).1);
    } else {
      assert StepIn(job, pc, w).1.stashes == w.stashes;
    }
  }

  lemma StepFits(l: Layout, job: Job, pc: Pc, w: World)
    requires JobFits(l, job) && PcFits(l, job, pc) && WorldFits(l, w) && !pc.Done?
    ensures PcFits(l, job, StepIn(job, pc, w).0)
    ensures WorldFits(l, StepIn(job, pc, w).1)
  {
    StepPcFits(l, job, pc, w);
    StepWorldFits(l, job, pc, w);
  }

  lemma PointStepWriting(job: Job, pc: Pc, p: Point)
    requires KeyOf(job, pc).PointAt?
    ensures StepPoint(job, pc, p).0.Writing? ==> job.call.StageCall?
  {}

  lemma SubStepWriting(job: Job, pc: Pc, s: Subsystem)
    requires KeyOf(job, pc).SubAt?
    ensures StepSub(job, pc, s).0.Writing? ==> job.call.StageCall?
  {}

  lemma WrittenStashFits(l: Layout, job: Job, device: string, st: Stash, o: WriteOutcome)
    requires JobFits(l, job) && job.call.StageCall? && InitFits(l, StashedInitiator(st, true), job.vol)
    ensures var req := job.call.sreq;
            var after := WriteStash(st, StagedContext(req.context, req.parent, device), o).0;
            InitFits(l, StashedInitiator(after, true), job.vol)
  {
    var req := job.call.sreq;
    StashRoundTrip(StagedContext(req.context, req.parent, device));
    StagedInitiator(req.context, req.parent, device);
  }

  lemma StashStepFits(l: Layout, job: Job, pc: Pc, st: Stash)
    requires JobFits(l, job) && PcFits(l, job, pc) && KeyOf(job, pc).StashAt?
    requires InitFits(l, StashedInitiator(st, true), job.vol)
    ensures var (next, after) := StepStash(job, pc, st);
            InitFits(l, StashedInitiator(after, true), job.vol) && InitFits(l, InitOf(next), job.vol) && !next.Writing?
  {
    if pc.Writing? {
      WrittenStashFits(l, job, pc.device, st, job.call.senv.write);
    } else {
      ReadingStashStep(job, pc, st);
    }
  }

  lemma ReadingStashStep(job: Job, pc: Pc, st: Stash)
    requires !pc.Writing? && KeyOf(job, pc).StashAt?
    ensures StepStash(job, pc, st).1 in {st, NoFile} && !StepStash(job, pc, st).0.Writing?
    ensures InitOf(StepStash(job, pc, st).0).Some? ==>
              InitOf(StepStash(job, pc, st).0) in {InitOf(pc), StashedInitiator(st, true)}
  {}

  lemma {:induction false} ExecFits(l: Layout, job: Job, pc: Pc, w: World)
    requires JobFits(l, job) && PcFits(l, job, pc) && WorldFits(l, w)
    ensures WorldFits(l, ExecIn(job, pc, w).1)
    decreases Rank(pc), Minor(pc), Attempts(pc)
  {
    if !pc.Done? {
      StepInLower(job, pc, w);
      StepFits(l, job, pc, w);
      ExecFits(l, job, StepIn(job, pc, w).0, StepIn(job, pc, w).1);
    }
  }

  /** A step of one volume's call commutes with all that is left of another volume's call. */
  lemma {:induction false} StepExecCommute(l: Layout, f: Job, fpc: Pc, g: Job, gpc: Pc, w: World)
    requires JobFits(l, f) && JobFits(l, g) && PcFits(l, f, fpc) && PcFits(l, g, gpc) && f.vol != g.vol
    requires WorldFits(l, w) && !fpc.Done?
    ensures var (fnext, fw) := StepIn(f, fpc, w);
            var (gend, gw) := ExecIn(g, gpc, w);
            ExecIn(g, gpc, fw) == (gend, StepIn(f, fpc, gw).1) && StepIn(f, fpc, gw).0 == fnext
    decreases Rank(gpc), Minor(gpc), Attempts(gpc)
  {
    if !gpc.Done? {
      KeysApart(l, f, fpc, g, gpc);
      StepsCommute(f, fpc, g, gpc, w);
      StepInLower(g, gpc, w);
      StepFits(l, g, gpc, w);
      StepExecCommute(l, f, fpc, g, StepIn(g, gpc, w).0, StepIn(g, gpc, w).1);
    }
  }

  // ---------- Threads ----------

  /** Thread `t` serves `jobs[t]`; `order` lists the threads as they got their locks. */
  datatype Sys = Sys(locks: LockState, pcs: seq<Pc>, order: seq<nat>, world: World)

  function Vols(jobs: seq<Job>): seq<string> {
    seq(|jobs|, t requires 0 <= t < |jobs| => jobs[t].vol)
  }

  function Init(jobs: seq<Job>, w: World): Sys {
    Sys(Start(|jobs|), seq(|jobs|, t => Begin), [], w)
  }

  /** Thread `t` takes its next step: fetch the mutex, lock it if free, step the call, unlock. */
  function Move(jobs: seq<Job>, s: Sys, t: nat): Sys
    requires |s.pcs| == |s.locks.phases| == |jobs|
  {
    if t >= |jobs| then s
    else
      match s.locks.phases[t]
      case Idle => s.(locks := LoadOrStore(s.locks, Vols(jobs), t))
      case Waiting(_) =>
        var locks := Acquire(s.locks, t);
        if locks.phases[t].Holding? then s.(locks := locks, order := s.order + [t]) else s
      case Holding(_) =>
        if s.pcs[t].Done? then s.(locks := Release(s.locks, t))
        else
          var (next, w) := StepIn(jobs[t], s.pcs[t], s.world);
          s.(pcs := s.pcs[t := next], world := w)
      case Finished => s
  }

  function Run(jobs: seq<Job>, s: Sys, schedule: seq<nat>): (r: Sys)
    requires |s.pcs| == |s.locks.phases| == |jobs|
    ensures |r.pcs| == |r.locks.phases| == |jobs|
    decreases |schedule|
  {
    if schedule == [] then s else Run(jobs, Move(jobs, s, schedule[0]), schedule[1..])
  }

  predicate Indexed(order: seq<nat>, n: nat) {
    forall i | 0 <= i < |order| :: order[i] < n
  }

  predicate Distinct(order: seq<nat>) {
    forall i, j | 0 <= i < j < |order| :: order[i] != order[j]
  }

  /** The calls one at a time, in the given order: their answers and the final state. */
  function Serial(jobs: seq<Job>, order: seq<nat>, w: World): (seq<bool>, World)
    requires Indexed(order, |jobs|)
  {
    if order == [] then ([], w)
    else
      var k := |order| - 1;
      var (answers, before) := Serial(jobs, order[..k], w);
      var (after, ok) := ServeIn(jobs[order[k]], before);
      (answers + [ok], after)
  }

  /** What is left of every started call, finished one call after another in the given order. */
  function Finish(jobs: seq<Job>, order: seq<nat>, pcs: seq<Pc>, w: World): (seq<bool>, World)
    requires |pcs| == |jobs| && Indexed(order, |jobs|)
  {
    if order == [] then ([], w)
    else
      var (end, after) := ExecIn(jobs[order[0]], pcs[order[0]], w);
      var (answers, last) := Finish(jobs, order[1..], pcs, after);
      ([end.ok] + answers, last)
  }

  ghost predicate OrderInv(jobs: seq<Job>, s: Sys) {
    && |s.pcs| == |jobs|
    && Inv(s.locks, Vols(jobs))
    && Indexed(s.order, |jobs|)
    && Distinct(s.order)
    && (forall t | 0 <= t < |jobs| ::
          match s.locks.phases[t]
          case Holding(_) => t in s.order
          case Finished => t in s.order && s.pcs[t].Done?
          case _ => t !in s.order && s.pcs[t] == Begin)
  }

  ghost predicate SysFits(l: Layout, jobs: seq<Job>, s: Sys) {
    && OrderInv(jobs, s)
    && WorldFits(l, s.world)
    && forall t | 0 <= t < |jobs| :: JobFits(l, jobs[t]) && PcFits(l, jobs[t], s.pcs[t])
  }

  lemma {:induction false} FinishSnoc(jobs: seq<Job>, order: seq<nat>, pcs: seq<Pc>, w: World, t: nat)
    requires |pcs| == |jobs| && t < |jobs| && Indexed(order, |jobs|)
    ensures var (answers, last) := Finish(jobs, order, pcs, w);
            var (end, after) := ExecIn(jobs[t], pcs[t], last);
            Finish(jobs, order + [t], pcs, w) == (answers + [end.ok], after)
  {
    if order == [] {
      assert order + [t] == [t] && [t][1..] == [];
      var (end, after) := ExecIn(jobs[t], pcs[t], w);
      var none: seq<bool> := [];
      assert Finish(jobs, [t][1..], pcs, after) == (none, after);
      assert none + [end.ok] == [end.ok] + none;
    } else {
      var (first, after) := ExecIn(jobs[order[0]], pcs[order[0]], w);
      FinishSnoc(jobs, order[1..], pcs, after, t);
      assert (order + [t])[1..] == order[1..] + [t];
      var (answers, last) := Finish(jobs, order[1..], pcs, after);
      var end := ExecIn(jobs[t], pcs[t], last).0;
      assert [first.ok] + (answers + [end.ok]) == [first.ok] + answers + [end.ok];
    }
  }

  /** Only the threads in the list matter. */
  lemma {:induction false} FinishLocal(jobs: seq<Job>, order: seq<nat>, pcs: seq<Pc>, other: seq<Pc>, w: World)
    requires |pcs| == |other| == |jobs| && Indexed(order, |jobs|)
    requires forall i | 0 <= i < |order| :: pcs[order[i]] == other[order[i]]
    ensures Finish(jobs, order, pcs, w) == Finish(jobs, order, other, w)
  {
    if order != [] {
      FinishLocal(jobs, order[1..], pcs, other, ExecIn(jobs[order[0]], pcs[order[0]], w).1);
    }
  }

  /** A step of one call does not change what finishing all of them in order leads to. */
  lemma {:induction false} FinishStep(l: Layout, jobs: seq<Job>, order: seq<nat>, pcs: seq<Pc>, w: World, t: nat)
    requires |pcs| == |jobs| && t < |jobs| && Indexed(order, |jobs|) && Distinct(order)
    requires t in order && !pcs[t].Done? && WorldFits(l, w)
    requires forall u | 0 <= u < |jobs| :: JobFits(l, jobs[u]) && PcFits(l, jobs[u], pcs[u])
    requires forall i | 0 <= i < |order| && order[i] != t :: pcs[order[i]].Done? || jobs[order[i]].vol != jobs[t].vol
    ensures var (next, after) := StepIn(jobs[t], pcs[t], w);
            Finish(jobs, order, pcs[t := next], after) == Finish(jobs, order, pcs, w)
  {
    var (next, after) := StepIn(jobs[t], pcs[t], w);
    var u, rest := order[0], order[1..];
    assert order == [u] + rest;
    if u == t {
      StepInLower(jobs[t], pcs[t], w);
      FinishLocal(jobs, rest, pcs, pcs[t := next], ExecIn(jobs[t], next, after).1);
    } else {
      var after' := ExecIn(jobs[u], pcs[u], w).1;
      if !pcs[u].Done? {
        StepExecCommute(l, jobs[t], pcs[t], jobs[u], pcs[u], w);
      }
      ExecFits(l, jobs[u], pcs[u], w);
      FinishStep(l, jobs, rest, pcs, after', t);
    }
  }

  lemma HolderStep(jobs: seq<Job>, s: Sys, t: nat, next: Pc, w: World)
    requires OrderInv(jobs, s) && t < |jobs| && s.locks.phases[t].Holding?
    ensures OrderInv(jobs, s.(pcs := s.pcs[t := next], world := w))
  {}

  lemma HolderRelease(jobs: seq<Job>, s: Sys, t: nat)
    requires OrderInv(jobs, s) && t < |jobs| && s.locks.phases[t].Holding? && s.pcs[t].Done?
    ensures OrderInv(jobs, s.(locks := Release(s.locks, t)))
  {
    StepInv(s.locks, Vols(jobs), t);
    assert Release(s.locks, t).phases == s.locks.phases[t := Finished];
  }

  lemma MoveOrder(jobs: seq<Job>, s: Sys, t: nat)
    requires OrderInv(jobs, s) && t < |jobs|
    ensures OrderInv(jobs, Move(jobs, s, t))
  {
    match s.locks.phases[t] {
      case Idle =>
        StepInv(s.locks, Vols(jobs), t);
      case Waiting(m) =>
        StepInv(s.locks, Vols(jobs), t);
      case Holding(_) =>
        if s.pcs[t].Done? {
          HolderRelease(jobs, s, t);
        } else {
          var (next, w) := StepIn(jobs[t], s.pcs[t], s.world);
          HolderStep(jobs, s, t, next, w);
        }
      case Finished =>
    }
  }

  lemma MoveFits(l: Layout, jobs: seq<Job>, s: Sys, t: nat)
    requires SysFits(l, jobs, s) && t < |jobs|
    ensures SysFits(l, jobs, Move(jobs, s, t))
  {
    MoveOrder(jobs, s, t);
    if s.locks.phases[t].Holding? && !s.pcs[t].Done? {
      StepFits(l, jobs[t], s.pcs[t], s.world);
    }
  }

  /** Of two started calls for one volume, at most one is unfinished. */
  lemma OneActive(jobs: seq<Job>, s: Sys, t: nat, i: nat)
    requires OrderInv(jobs, s) && t < |jobs| && s.locks.phases[t].Holding?
    requires i < |s.order| && s.order[i] != t
    ensures s.pcs[s.order[i]].Done? || jobs[s.order[i]].vol != jobs[t].vol
  {
    var u := s.order[i];
    assert u in s.order;
    if s.locks.phases[u].Holding? && Vols(jobs)[u] == Vols(jobs)[t] {
      MutualExclusion(s.locks, Vols(jobs), t, u);
    }
  }

  /** A call that has just got its lock has all its steps before it, and comes last in lock order. */
  lemma LockSerial(l: Layout, jobs: seq<Job>, s: Sys, t: nat, w0: World)
    requires SysFits(l, jobs, s) && t < |jobs| && s.locks.phases[t].Waiting?
    requires Finish(jobs, s.order, s.pcs, s.world) == Serial(jobs, s.order, w0)
    ensures Indexed(s.order + [t], |jobs|)
    ensures Finish(jobs, s.order + [t], s.pcs, s.world) == Serial(jobs, s.order + [t], w0)
  {
    FinishSnoc(jobs, s.order, s.pcs, s.world, t);
    SerialSnoc(jobs, s.order, w0, t);
    var last := Serial(jobs, s.order, w0).1;
    assert last.Valid() && s.pcs[t] == Begin by {
      FinishValid(l, jobs, s.order, s.pcs, s.world);
    }
    ExecInIsServe(jobs[t], last);
  }

  lemma SerialSnoc(jobs: seq<Job>, order: seq<nat>, w: World, t: nat)
    requires Indexed(order, |jobs|) && t < |jobs|
    ensures Indexed(order + [t], |jobs|)
    ensures var (answers, before) := Serial(jobs, order, w);
            var (after, ok) := ServeIn(jobs[t], before);
            Serial(jobs, order + [t], w) == (answers + [ok], after)
  {
    assert (order + [t])[..|order|] == order;
  }

  lemma MoveSerial(l: Layout, jobs: seq<Job>, s: Sys, t: nat, w0: World)
    requires SysFits(l, jobs, s) && t < |jobs|
    requires Finish(jobs, s.order, s.pcs, s.world) == Serial(jobs, s.order, w0)
    ensures SysFits(l, jobs, Move(jobs, s, t))
    ensures var r := Move(jobs, s, t); Finish(jobs, r.order, r.pcs, r.world) == Serial(jobs, r.order, w0)
  {
    var r := Move(jobs, s, t);
    MoveFits(l, jobs, s, t);
    if s.locks.phases[t].Waiting? && r != s {
      LockSerial(l, jobs, s, t, w0);
    } else if s.locks.phases[t].Holding? && !s.pcs[t].Done? {
      forall i | 0 <= i < |s.order| && s.order[i] != t
        ensures s.pcs[s.order[i]].Done? || jobs[s.order[i]].vol != jobs[t].vol
      {
        OneActive(jobs, s, t, i);
      }
      FinishStep(l, jobs, s.order, s.pcs, s.world, t);
    }
  }

  lemma {:induction false} FinishValid(l: Layout, jobs: seq<Job>, order: seq<nat>, pcs: seq<Pc>, w: World)
    requires |pcs| == |jobs| && WorldFits(l, w)
    requires Indexed(order, |jobs|)
    requires forall u | 0 <= u < |jobs| :: JobFits(l, jobs[u]) && PcFits(l, jobs[u], pcs[u])
    ensures WorldFits(l, Finish(jobs, order, pcs, w).1)
  {
    if order != [] {
      var u := order[0];
      ExecFits(l, jobs[u], pcs[u], w);
      FinishValid(l, jobs, order[1..], pcs, ExecIn(jobs[u], pcs[u], w).1);
    }
  }

  lemma {:induction false} RunSerial(l: Layout, jobs: seq<Job>, s: Sys, schedule: seq<nat>, w0: World)
    requires SysFits(l, jobs, s)
    requires Finish(jobs, s.order, s.pcs, s.world) == Serial(jobs, s.order, w0)
    ensures var r := Run(jobs, s, schedule);
            SysFits(l, jobs, r) && Finish(jobs, r.order, r.pcs, r.world) == Serial(jobs, r.order, w0)
    decreases |schedule|
  {
    if schedule != [] {
      var t := schedule[0];
      if t < |jobs| {
        MoveSerial(l, jobs, s, t, w0);
      }
      RunSerial(l, jobs, Move(jobs, s, t), schedule[1..], w0);
    }
  }

  lemma {:induction false} FinishDone(jobs: seq<Job>, order: seq<nat>, pcs: seq<Pc>, w: World)
    requires |pcs| == |jobs| && Indexed(order, |jobs|)
    requires forall i | 0 <= i < |order| :: pcs[order[i]].Done?
    ensures var (answers, last) := Finish(jobs, order, pcs, w);
            && last == w && |answers| == |order|
            && forall i | 0 <= i < |order| :: pcs[order[i]] == Done(answers[i])
  {
    if order != [] {
      FinishDone(jobs, order[1..], pcs, w);
    }
  }

  /**
   * In every interleaving of any number of calls, once all of them are done the node is in the state, and
   * every call has the answer, that running them one at a time in the order of their locks gives.
   */
  lemma Serializable(l: Layout, jobs: seq<Job>, w0: World, schedule: seq<nat>)
    requires WorldFits(l, w0) && forall t | 0 <= t < |jobs| :: JobFits(l, jobs[t])
    ensures var s := Run(jobs, Init(jobs, w0), schedule);
            SysFits(l, jobs, s) &&
            ((forall t | 0 <= t < |jobs| :: s.locks.phases[t].Finished?) ==>
              var (answers, last) := Serial(jobs, s.order, w0);
              && s.world == last && |answers| == |s.order|
              && (forall i | 0 <= i < |s.order| :: s.pcs[s.order[i]] == Done(answers[i]))
              && (forall t | 0 <= t < |jobs| :: t in s.order)
              && Distinct(s.order))
  {
    var init := Init(jobs, w0);
    StartInv(Vols(jobs));
    assert SysFits(l, jobs, init);
    RunSerial(l, jobs, init, schedule, w0);
    var s := Run(jobs, init, schedule);
    if forall t | 0 <= t < |jobs| :: s.locks.phases[t].Finished? {
      forall i | 0 <= i < |s.order| ensures s.pcs[s.order[i]].Done? {
        assert s.order[i] in s.order && s.locks.phases[s.order[i]].Finished?;
      }
      FinishDone(jobs, s.order, s.pcs, s.world);
    }
  }
}
