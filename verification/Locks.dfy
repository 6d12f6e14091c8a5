/**
 * Per-identifier locks. Thread `t` wants the lock of `ids[t]`; its own fresh mutex, which it offers to
 * LoadOrStore, is number `t`. Each function below is one atomic step of one thread.
 */
module Locks {

  datatype Phase =
    | Idle                    // before LoadOrStore
    | Waiting(mutex: nat)     // has its mutex, not yet locked
    | Holding(mutex: nat)     // between Lock and the returned unlock
    | Finished

  datatype LockState = LockState(mutexes: map<string, nat>, holders: map<nat, nat>, phases: seq<Phase>)

  function Start(n: nat): LockState {
    LockState(map[], map[], seq(n, i => Idle))
  }

  function LoadOrStore(l: LockState, ids: seq<string>, t: nat): LockState
    requires t < |ids| && t < |l.phases|
  {
    var mutexes := if ids[t] in l.mutexes then l.mutexes else l.mutexes[ids[t] := t];
    LockState(mutexes, l.holders, l.phases[t := Waiting(mutexes[ids[t]])])
  }

  /** The mutex is taken only if it is free; otherwise the thread stays where it is. */
  function Acquire(l: LockState, t: nat): LockState
    requires t < |l.phases| && l.phases[t].Waiting?
  {
    var m := l.phases[t].mutex;
    if m in l.holders then l else LockState(l.mutexes, l.holders[m := t], l.phases[t := Holding(m)])
  }

  function Release(l: LockState, t: nat): LockState
    requires t < |l.phases| && l.phases[t].Holding?
  {
    LockState(l.mutexes, l.holders - {l.phases[t].mutex}, l.phases[t := Finished])
  }

  ghost predicate Inv(l: LockState, ids: seq<string>) {
    && |l.phases| == |ids|
    && (forall id | id in l.mutexes :: l.mutexes[id] < |ids| && ids[l.mutexes[id]] == id)
    && (forall t | 0 <= t < |ids| && (l.phases[t].Waiting? || l.phases[t].Holding?) ::
          ids[t] in l.mutexes && l.mutexes[ids[t]] == l.phases[t].mutex)
    && (forall m | m in l.holders :: l.holders[m] < |ids| && l.phases[l.holders[m]] == Holding(m))
    && (forall t | 0 <= t < |ids| && l.phases[t].Holding? ::
          l.phases[t].mutex in l.holders && l.holders[l.phases[t].mutex] == t)
  }

  lemma StartInv(ids: seq<string>)
    ensures Inv(Start(|ids|), ids)
  {}

  lemma StepInv(l: LockState, ids: seq<string>, t: nat)
    requires Inv(l, ids) && t < |ids|
    ensures l.phases[t].Idle? ==> Inv(LoadOrStore(l, ids, t), ids)
    ensures l.phases[t].Waiting? ==> Inv(Acquire(l, t), ids)
    ensures l.phases[t].Holding? ==> Inv(Release(l, t), ids)
  {
    if l.phases[t].Holding? {
      var r := Release(l, t);
      forall u | 0 <= u < |ids| && r.phases[u].Holding?
        ensures r.phases[u].mutex in r.holders && r.holders[r.phases[u].mutex] == u
      {
        assert l.phases[u].Holding? && u != t;
      }
    }
  }

  /** Two holders of one identifier are one thread. */
  lemma MutualExclusion(l: LockState, ids: seq<string>, t: nat, u: nat)
    requires Inv(l, ids) && t < |ids| && u < |ids| && ids[t] == ids[u]
    requires l.phases[t].Holding? && l.phases[u].Holding?
    ensures t == u
  {}

  /** The thread that keeps a waiting thread out holds the very identifier that thread waits for. */
  lemma BlockedBySameId(l: LockState, ids: seq<string>, t: nat)
    requires Inv(l, ids) && t < |ids| && l.phases[t].Waiting?
    ensures Acquire(l, t) == l <==> l.phases[t].mutex in l.holders
    ensures Acquire(l, t) == l
       <==> exists u | 0 <= u < |ids| :: l.phases[u].Holding? && ids[u] == ids[t]
  {
    var m := l.phases[t].mutex;
    if m in l.holders {
      var u := l.holders[m];
      assert l.phases[u] == Holding(m) && ids[u] == ids[l.mutexes[ids[u]]] == ids[m];
      assert ids[t] == ids[l.mutexes[ids[t]]] == ids[m];
    } else {
      assert Acquire(l, t).phases[t] == Holding(m);
      forall u | 0 <= u < |ids| && l.phases[u].Holding? ensures ids[u] != ids[t] {
        assert l.phases[u].mutex in l.holders;
      }
    }
  }

  // ---------- Runs of the locks alone ----------

  /** Thread `t` makes its next step; a holder's next step is its unlock, whenever it is scheduled. */
  function Move(l: LockState, ids: seq<string>, t: nat): LockState
    requires |l.phases| == |ids|
  {
    if t >= |ids| then l
    else
      match l.phases[t]
      case Idle => LoadOrStore(l, ids, t)
      case Waiting(_) => Acquire(l, t)
      case Holding(_) => Release(l, t)
      case Finished => l
  }

  function Run(l: LockState, ids: seq<string>, schedule: seq<nat>): (r: LockState)
    requires |l.phases| == |ids|
    ensures |r.phases| == |ids|
    decreases |schedule|
  {
    if schedule == [] then l else Run(Move(l, ids, schedule[0]), ids, schedule[1..])
  }

  /**
   * In every run of any number of threads: an identifier has at most one holder, its mutex never changes
   * once stored, and whoever waits or holds has that mutex.
   */
  lemma {:induction false} LockSafety(l: LockState, ids: seq<string>, schedule: seq<nat>)
    requires Inv(l, ids)
    ensures var r := Run(l, ids, schedule);
            && Inv(r, ids)
            && (forall id | id in l.mutexes :: id in r.mutexes && r.mutexes[id] == l.mutexes[id])
            && (forall t, u | 0 <= t < |ids| && 0 <= u < |ids| && ids[t] == ids[u]
                           && r.phases[t].Holding? && r.phases[u].Holding? :: t == u)
    decreases |schedule|
  {
    if schedule != [] {
      var t := schedule[0];
      if t < |ids| {
        StepInv(l, ids, t);
      }
      LockSafety(Move(l, ids, t), ids, schedule[1..]);
    }
    var r := Run(l, ids, schedule);
    forall t, u | 0 <= t < |ids| && 0 <= u < |ids| && ids[t] == ids[u]
               && r.phases[t].Holding? && r.phases[u].Holding? ensures t == u {
      MutualExclusion(r, ids, t, u);
    }
  }

  /** No deadlock: while some thread is not finished, some thread can change the state. */
  lemma Progress(l: LockState, ids: seq<string>)
    requires Inv(l, ids)
    requires exists t | 0 <= t < |ids| :: !l.phases[t].Finished?
    ensures exists t | 0 <= t < |ids| :: Move(l, ids, t).phases[t] != l.phases[t]
  {
    var t :| 0 <= t < |ids| && !l.phases[t].Finished?;
    if l.phases[t].Waiting? && Acquire(l, t) == l {
      BlockedBySameId(l, ids, t);
      var u :| 0 <= u < |ids| && l.phases[u].Holding? && ids[u] == ids[t];
      assert Move(l, ids, u).phases[u] == Finished;
    } else {
      assert Move(l, ids, t).phases[t] != l.phases[t];
    }
  }

  /** The shared object: every method is one atomic step of the calling thread. */
  class VolumeLocks {
    const ids: seq<string>
    var mutexes: map<string, nat>
    var holders: map<nat, nat>
    var phases: seq<Phase>

    function State(): LockState
      reads this
    {
      LockState(mutexes, holders, phases)
    }

    ghost predicate Valid()
      reads this
    {
      Inv(State(), ids)
    }

    constructor (ids: seq<string>)
      ensures Valid() && this.ids == ids && State() == Start(|ids|)
    {
      this.ids := ids;
      mutexes, holders := map[], map[];
      phases := seq(|ids|, i => Idle);
    }

    method FetchMutex(t: nat)
      requires Valid() && t < |ids| && phases[t].Idle?
      modifies this
      ensures Valid() && State() == LoadOrStore(old(State()), ids, t)
    {
      StepInv(State(), ids, t);
      if ids[t] !in mutexes {
        mutexes := mutexes[ids[t] := t];
      }
      phases := phases[t := Waiting(mutexes[ids[t]])];
    }

    method TryLock(t: nat) returns (locked: bool)
      requires Valid() && t < |ids| && phases[t].Waiting?
      modifies this
      ensures Valid() && State() == Acquire(old(State()), t)
      ensures locked <==> !(exists u | 0 <= u < |ids| :: old(phases)[u].Holding? && ids[u] == ids[t])
    {
      StepInv(State(), ids, t);
      BlockedBySameId(State(), ids, t);
      var m := phases[t].mutex;
      locked := m !in holders;
      if locked {
        holders := holders[m := t];
        phases := phases[t := Holding(m)];
      }
    }

    method Unlock(t: nat)
      requires Valid() && t < |ids| && phases[t].Holding?
      modifies this
      ensures Valid() && State() == Release(old(State()), t)
    {
      StepInv(State(), ids, t);
      holders := holders - {phases[t].mutex};
      phases := phases[t := Finished];
    }
  }
}
