/** CreateVolume and DeleteVolume calls in any number at once, under the controller's locks. */
module ControllerSystem {
  import opened Strings
  import opened Identifiers
  import opened Nvme
  import opened Controller
  import opened Locks

  /** Each step makes one call of the storage API. */
  datatype Pc =
    | Begin
    | Looking
    | Sourcing
    | Cloning
    | Creating
    | Publishing(id: string)
    | Informing(id: string)
    | CleaningUp(id: string)
    | Deleting
    | Done(answer: Option<string>)

  function CreateStep(req: CreateReq, env: CreateEnv, pc: Pc, b: Backend): (Pc, Backend) {
    var place := Wanted(req);
    match pc
    case Begin => (if "cluster_id" in req.params && env.client then Looking else Done(None), b)
    case Looking =>
      var found := if env.lookupFails then None else Find(b, place);
      (if found.Some? then Publishing(IDFor(place.cluster, req, found.value))
       else if req.source != NoSource then Sourcing
       else if env.prepares then Creating
       else Done(None), b)
    case Sourcing =>
      var cluster := SourceCluster(req.source);
      (if cluster.None? || !env.sourceClient then Done(None)
       else if req.source.FromVolume?
               && (env.snapshot.None? || GetSnapshot(SnapshotID(SpdkSnapshot(cluster.value, env.snapshot.value))).None?)
       then Done(None)
       else Cloning, b)
    case Cloning =>
      var cluster := SourceCluster(req.source);
      if cluster.None? then (Done(None), b)
      else
        var (after, ok) := Add(b, env.newID, Place(cluster.value, env.clonePool, req.name), env.clone);
        (if ok then Publishing(IDFor(cluster.value, req, env.newID)) else Done(None), after)
    case Creating =>
      var (after, ok) := Add(b, env.newID, place, env.create);
      (if ok then Publishing(IDFor(place.cluster, req, env.newID)) else Done(None), after)
    case Publishing(id) =>
      var v := GetSpdkVol(id);
      var read := v.Some? && Exists(b, place.cluster, v.value.lvolID) && env.published;
      (if read then Informing(id) else CleaningUp(id), b)
    case Informing(id) =>
      var v := GetSpdkVol(id);
      (if v.Some? && Exists(b, place.cluster, v.value.lvolID) && env.info then Done(Some(id)) else CleaningUp(id), b)
    case CleaningUp(id) => (Done(None), CleanUp(b, id, env))
    case _ => (Done(None), b)
  }

  function DeleteStep(volumeID: string, env: DeleteEnv, pc: Pc, b: Backend): (Pc, Backend) {
    match (pc, GetSpdkVol(volumeID))
    case (Begin, Some(v)) =>
      (if env.client && env.unpublished && Exists(b, v.clusterID, v.lvolID) then Deleting else Done(None), b)
    case (Deleting, Some(v)) =>
      (Done(if env.delete == Ok then Some(volumeID) else None),
       if env.delete == Lost then b else Drop(b, v.clusterID, v.lvolID))
    case _ => (Done(None), b)
  }

  function Step(c: Call, pc: Pc, b: Backend): (Pc, Backend) {
    match c
    case Create(req, env) => CreateStep(req, env, pc, b)
    case Delete(id, env) => DeleteStep(id, env, pc, b)
  }

  function Rank(pc: Pc): nat {
    match pc
    case Begin => 9
    case Looking => 8
    case Sourcing => 7
    case Cloning => 6
    case Creating => 6
    case Publishing(_) => 5
    case Informing(_) => 4
    case CleaningUp(_) => 3
    case Deleting => 3
    case Done(_) => 0
  }

  function Exec(c: Call, pc: Pc, b: Backend): (Pc, Backend)
    decreases Rank(pc)
  {
    if pc.Done? then (pc, b)
    else
      var (next, after) := Step(c, pc, b);
      assert Rank(next) < Rank(pc);
      Exec(c, next, after)
  }

  lemma ExecPublishing(c: Call, id: string, b: Backend)
    requires c.Create?
    ensures Exec(c, Publishing(id), b)
         == if Published(b, Wanted(c.req).cluster, id, c.cenv) then (Done(Some(id)), b)
            else (Done(None), CleanUp(b, id, c.cenv))
  {
    assert Exec(c, CleaningUp(id), b) == (Done(None), CleanUp(b, id, c.cenv));
    assert Exec(c, Informing(id), b) == Exec(c, Step(c, Informing(id), b).0, b);
  }

  /** Without interruption the steps do what the whole call does. */
  lemma ExecIsCreate(c: Call, b: Backend)
    requires c.Create?
    ensures var (after, id) := CreateVolume(b, c.req, c.cenv); Exec(c, Begin, b) == (Done(id), after)
  {
    var req, env := c.req, c.cenv;
    var (after, id) := Provision(b, req, env);
    if "cluster_id" in req.params && env.client {
      assert Exec(c, Begin, b) == Exec(c, Looking, b);
      var next := Step(c, Looking, b).0;
      assert Exec(c, Looking, b) == Exec(c, next, b);
      if next.Sourcing? {
        var last := Step(c, Sourcing, b).0;
        assert Exec(c, Sourcing, b) == Exec(c, last, b);
        if last.Cloning? {
          assert Exec(c, Cloning, b) == Exec(c, Step(c, Cloning, b).0, after);
        }
      } else if next.Creating? {
        assert Exec(c, Creating, b) == Exec(c, Step(c, Creating, b).0, after);
      }
      if id.Some? {
        ExecPublishing(c, id.value, after);
      }
    }
  }

  lemma ExecIsDelete(c: Call, b: Backend)
    requires c.Delete?
    ensures var (after, ok) := DeleteVolume(b, c.volumeID, c.denv);
            Exec(c, Begin, b) == (Done(if ok then Some(c.volumeID) else None), after)
  {
    var next := Step(c, Begin, b).0;
    assert Exec(c, Begin, b) == Exec(c, next, b);
  }

  // ---------- Threads ----------

  datatype Sys = Sys(locks: LockState, pcs: seq<Pc>, backend: Backend)

  function Keys(calls: seq<Call>): seq<string> {
    seq(|calls|, t requires 0 <= t < |calls| => LockKey(calls[t]))
  }

  function Init(calls: seq<Call>, b: Backend): Sys {
    Sys(Start(|calls|), seq(|calls|, t => Begin), b)
  }

  function Move(calls: seq<Call>, s: Sys, t: nat): (r: Sys)
    requires |s.pcs| == |s.locks.phases| == |calls|
    ensures |r.pcs| == |r.locks.phases| == |calls|
  {
    if t >= |calls| then s
    else
      match s.locks.phases[t]
      case Idle => s.(locks := LoadOrStore(s.locks, Keys(calls), t))
      case Waiting(_) => s.(locks := Acquire(s.locks, t))
      case Holding(_) =>
        if s.pcs[t].Done? then s.(locks := Release(s.locks, t))
        else
          var (next, b) := Step(calls[t], s.pcs[t], s.backend);
          s.(pcs := s.pcs[t := next], backend := b)
      case Finished => s
  }

  function Run(calls: seq<Call>, s: Sys, schedule: seq<nat>): Sys
    requires |s.pcs| == |s.locks.phases| == |calls|
    decreases |schedule|
  {
    if schedule == [] then s else Run(calls, Move(calls, s, schedule[0]), schedule[1..])
  }

  /** The name was looked up and not found, and the volume is still to be made. */
  predicate AboutToAdd(pc: Pc) {
    pc.Sourcing? || pc.Cloning? || pc.Creating?
  }

  /** Lookups are honest and clones land where the request wants them. */
  predicate Honest(c: Call) {
    c.Create? ==> !c.cenv.lookupFails && Lands(c.req, c.cenv)
  }

  ghost predicate Safe(calls: seq<Call>, s: Sys) {
    && |s.pcs| == |calls|
    && Inv(s.locks, Keys(calls))
    && Unique(s.backend)
    && (forall t | 0 <= t < |calls| && !s.locks.phases[t].Holding? :: !AboutToAdd(s.pcs[t]))
    && (forall t | 0 <= t < |calls| && calls[t].Create? && AboutToAdd(s.pcs[t]) ::
          !Has(s.backend, Wanted(calls[t].req)))
  }

  /** The effect of one step on the backend: nothing, fewer volumes, or one more at the wanted place. */
  lemma StepEffect(c: Call, pc: Pc, b: Backend)
    requires Honest(c) && Unique(b)
    requires c.Create? && AboutToAdd(pc) ==> !Has(b, Wanted(c.req))
    ensures var (next, after) := Step(c, pc, b);
            && Unique(after)
            && (forall p | Has(after, p) && !Has(b, p) ::
                  c.Create? && p == Wanted(c.req) && AboutToAdd(pc) && !AboutToAdd(next))
            && (c.Create? && AboutToAdd(next) ==> !Has(after, Wanted(c.req)))
  {
    match c {
      case Create(req, env) => CreateStepEffect(c, pc, b);
      case Delete(id, env) =>
        if GetSpdkVol(id).Some? {
          DropUnique(b, GetSpdkVol(id).value.clusterID, GetSpdkVol(id).value.lvolID);
        }
    }
  }

  lemma CreateStepEffect(c: Call, pc: Pc, b: Backend)
    requires c.Create? && Honest(c) && Unique(b)
    requires AboutToAdd(pc) ==> !Has(b, Wanted(c.req))
    ensures var (next, after) := CreateStep(c.req, c.cenv, pc, b);
            && Unique(after)
            && (forall p | Has(after, p) && !Has(b, p) :: p == Wanted(c.req) && AboutToAdd(pc) && !AboutToAdd(next))
            && (AboutToAdd(next) ==> !Has(after, Wanted(c.req)))
  {
    FindExact(b, Wanted(c.req));
    match pc {
      case Creating => AddUnique(b, c.cenv.newID, Wanted(c.req), c.cenv.create);
      case Cloning => AddUnique(b, c.cenv.newID, Wanted(c.req), c.cenv.clone);
      case CleaningUp(id) =>
        if GetSpdkVol(id).Some? {
          DropUnique(b, GetSpdkVol(id).value.clusterID, GetSpdkVol(id).value.lvolID);
        }
      case _ =>
    }
  }

  lemma HoldersApart(calls: seq<Call>, l: LockState, t: nat, u: nat)
    requires Inv(l, Keys(calls)) && t < |calls| && u < |calls| && t != u
    requires l.phases[t].Holding? && l.phases[u].Holding?
    ensures LockKey(calls[t]) != LockKey(calls[u])
  {
    if Keys(calls)[t] == Keys(calls)[u] {
      MutualExclusion(l, Keys(calls), t, u);
    }
  }

  lemma MoveSafe(calls: seq<Call>, s: Sys, t: nat)
    requires Safe(calls, s) && t < |calls| && Honest(calls[t])
    ensures Safe(calls, Move(calls, s, t))
  {
    var r := Move(calls, s, t);
    StepInv(s.locks, Keys(calls), t);
    if s.locks.phases[t].Holding? && !s.pcs[t].Done? {
      StepEffect(calls[t], s.pcs[t], s.backend);
      forall u | 0 <= u < |calls| && u != t && calls[u].Create? && AboutToAdd(s.pcs[u])
        ensures !Has(r.backend, Wanted(calls[u].req))
      {
        HoldersApart(calls, s.locks, t, u);
      }
    }
  }

  /**
   * However CreateVolume calls, plain or from a snapshot or a volume, and DeleteVolume calls interleave and
   * fail, the backend never has two volumes of one name in one pool of one cluster.
   */
  lemma {:induction false} OneVolumePerName(calls: seq<Call>, s: Sys, schedule: seq<nat>)
    requires Safe(calls, s) && forall t | 0 <= t < |calls| :: Honest(calls[t])
    ensures Safe(calls, Run(calls, s, schedule)) && Unique(Run(calls, s, schedule).backend)
    decreases |schedule|
  {
    if schedule != [] {
      var t := schedule[0];
      if t < |calls| {
        MoveSafe(calls, s, t);
      }
      OneVolumePerName(calls, Move(calls, s, t), schedule[1..]);
    }
  }

  lemma StartSafe(calls: seq<Call>, b: Backend)
    requires Unique(b)
    ensures Safe(calls, Init(calls, b))
  {
    StartInv(Keys(calls));
  }
}
