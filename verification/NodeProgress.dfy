/** Under every fair scheduling all node calls finish, however their steps interleave and fail. */
module NodeProgress {
  import opened NodeOps
  import opened NodeSteps
  import opened NodeWorld
  import opened NodeSystem
  import opened Locks

  /** An endless run: the system after each number of moves. */
  type Trace = nat -> Sys

  ghost predicate Sized(jobs: seq<Job>, s: Sys) {
    |s.pcs| == |s.locks.phases| == |jobs|
  }

  ghost predicate Next(jobs: seq<Job>, trace: Trace, pick: nat -> nat, n: nat) {
    Sized(jobs, trace(n)) && trace(n + 1) == NodeSystem.Move(jobs, trace(n), pick(n))
  }

  /** Move number `n` is one of thread `pick(n)`. */
  ghost predicate IsTrace(jobs: seq<Job>, trace: Trace, pick: nat -> nat) {
    forall n: nat :: Next(jobs, trace, pick, n)
  }

  ghost predicate ComesBack(pick: nat -> nat, t: nat, n: nat) {
    exists m | m >= n :: pick(m) == t
  }

  /** Every thread gets a turn again and again. */
  ghost predicate Fair(pick: nat -> nat, threads: nat) {
    forall t: nat, n: nat | t < threads :: ComesBack(pick, t, n)
  }

  /** The threads that are not finished. */
  function Open(s: Sys): set<nat> {
    set t | 0 <= t < |s.locks.phases| && !s.locks.phases[t].Finished?
  }

  // ---------- What a move leaves alone ----------

  lemma {:induction false} OrderAt(jobs: seq<Job>, trace: Trace, pick: nat -> nat, n: nat)
    requires IsTrace(jobs, trace, pick) && OrderInv(jobs, trace(0))
    ensures OrderInv(jobs, trace(n))
  {
    if n > 0 {
      OrderAt(jobs, trace, pick, n - 1);
      assert Next(jobs, trace, pick, n - 1);
      if pick(n - 1) < |jobs| {
        MoveOrder(jobs, trace(n - 1), pick(n - 1));
      }
    }
  }

  lemma MoveOnlyOwn(jobs: seq<Job>, s: Sys, t: nat, u: nat)
    requires |s.pcs| == |s.locks.phases| == |jobs| && u < |jobs|
    requires u != t || s.locks.phases[u].Finished?
    ensures NodeSystem.Move(jobs, s, t).locks.phases[u] == s.locks.phases[u]
    ensures NodeSystem.Move(jobs, s, t).pcs[u] == s.pcs[u]
  {}

  lemma {:induction false} Untouched(jobs: seq<Job>, trace: Trace, pick: nat -> nat, n: nat, m: nat, t: nat)
    requires IsTrace(jobs, trace, pick) && t < |jobs| && n <= m
    requires Sized(jobs, trace(n))
    requires trace(n).locks.phases[t].Finished? || forall k | n <= k < m :: pick(k) != t
    ensures Sized(jobs, trace(m))
    ensures trace(m).locks.phases[t] == trace(n).locks.phases[t] && trace(m).pcs[t] == trace(n).pcs[t]
    decreases m - n
  {
    assert Next(jobs, trace, pick, m);
    if n < m {
      Untouched(jobs, trace, pick, n, m - 1, t);
      assert Next(jobs, trace, pick, m - 1);
      MoveOnlyOwn(jobs, trace(m - 1), pick(m - 1), t);
    }
  }

  /** Finished threads stay finished. */
  lemma OpenShrinks(jobs: seq<Job>, trace: Trace, pick: nat -> nat, n: nat, m: nat)
    requires IsTrace(jobs, trace, pick) && n <= m
    ensures Open(trace(m)) <= Open(trace(n))
  {
    assert Next(jobs, trace, pick, n) && Next(jobs, trace, pick, m);
    forall t | t in Open(trace(m)) ensures t in Open(trace(n)) {
      if trace(n).locks.phases[t].Finished? {
        Untouched(jobs, trace, pick, n, m, t);
      }
    }
  }

  lemma NextTurn(pick: nat -> nat, threads: nat, t: nat, n: nat) returns (turn: nat)
    requires Fair(pick, threads) && t < threads
    ensures turn >= n && pick(turn) == t && forall k | n <= k < turn :: pick(k) != t
  {
    assert ComesBack(pick, t, n);
    var m :| m >= n && pick(m) == t;
    turn := n;
    while pick(turn) != t
      invariant n <= turn <= m
      invariant forall k | n <= k < turn :: pick(k) != t
      decreases m - turn
    {
      turn := turn + 1;
    }
  }

  // ---------- Every call ends ----------

  lemma HolderMoves(jobs: seq<Job>, s: Sys, t: nat)
    requires |s.pcs| == |s.locks.phases| == |jobs| && t < |jobs| && s.locks.phases[t].Holding?
    ensures var r := NodeSystem.Move(jobs, s, t);
            if s.pcs[t].Done? then r.locks.phases[t].Finished?
            else r.locks.phases[t].Holding? && Lower(r.pcs[t], s.pcs[t])
  {
    if !s.pcs[t].Done? {
      StepInLower(jobs[t], s.pcs[t], s.world);
    }
  }

  /** Nobody is in the way of a thread while no lock is held. */
  lemma OthersMove(jobs: seq<Job>, s: Sys, t: nat)
    requires OrderInv(jobs, s) && t in Open(s)
    requires forall v | 0 <= v < |jobs| :: !s.locks.phases[v].Holding?
    ensures var next := NodeSystem.Move(jobs, s, t).locks.phases[t];
            if s.locks.phases[t].Idle? then next.Waiting? else next.Holding?
  {
    if s.locks.phases[t].Waiting? {
      BlockedBySameId(s.locks, Vols(jobs), t);
    }
  }

  lemma HolderTurn(jobs: seq<Job>, trace: Trace, pick: nat -> nat, n: nat, t: nat) returns (m: nat)
    requires IsTrace(jobs, trace, pick) && Fair(pick, |jobs|) && t < |jobs| && Sized(jobs, trace(n))
    requires trace(n).locks.phases[t].Holding?
    ensures m > n && Sized(jobs, trace(m))
    ensures if trace(n).pcs[t].Done? then trace(m).locks.phases[t].Finished?
            else trace(m).locks.phases[t].Holding? && Lower(trace(m).pcs[t], trace(n).pcs[t])
  {
    var turn := NextTurn(pick, |jobs|, t, n);
    Untouched(jobs, trace, pick, n, turn, t);
    assert Next(jobs, trace, pick, turn) && Next(jobs, trace, pick, turn + 1);
    HolderMoves(jobs, trace(turn), t);
    m := turn + 1;
  }

  /** A call that has its lock gets through, since every step brings it nearer to its end. */
  lemma {:induction false} HolderFinishes(jobs: seq<Job>, trace: Trace, pick: nat -> nat, n: nat, t: nat)
    returns (m: nat)
    requires IsTrace(jobs, trace, pick) && Fair(pick, |jobs|) && t < |jobs| && Sized(jobs, trace(n))
    requires trace(n).locks.phases[t].Holding?
    ensures m >= n && Sized(jobs, trace(m)) && trace(m).locks.phases[t].Finished?
    decreases Rank(trace(n).pcs[t]), Minor(trace(n).pcs[t]), Attempts(trace(n).pcs[t])
  {
    m := HolderTurn(jobs, trace, pick, n, t);
    if !trace(n).pcs[t].Done? {
      m := HolderFinishes(jobs, trace, pick, m, t);
    }
  }

  lemma SizedAt(jobs: seq<Job>, trace: Trace, pick: nat -> nat, n: nat)
    requires IsTrace(jobs, trace, pick)
    ensures Sized(jobs, trace(n))
  {
    assert Next(jobs, trace, pick, n);
  }

  lemma FreeTurn(jobs: seq<Job>, trace: Trace, pick: nat -> nat, n: nat, t: nat)
    requires IsTrace(jobs, trace, pick) && OrderInv(jobs, trace(n)) && pick(n) == t && t in Open(trace(n))
    requires forall v | 0 <= v < |jobs| :: !trace(n).locks.phases[v].Holding?
    ensures Sized(jobs, trace(n + 1))
    ensures var next := trace(n + 1).locks.phases[t];
            if trace(n).locks.phases[t].Idle? then next.Waiting? else next.Holding?
  {
    assert Next(jobs, trace, pick, n);
    SizedAt(jobs, trace, pick, n + 1);
    OthersMove(jobs, trace(n), t);
  }

  /** While a thread is not finished, some unfinished thread gets its lock. */
  lemma {:induction false} SomeoneHolds(jobs: seq<Job>, trace: Trace, pick: nat -> nat, n: nat, t: nat)
    returns (m: nat, u: nat)
    requires IsTrace(jobs, trace, pick) && Fair(pick, |jobs|) && OrderInv(jobs, trace(0))
    requires t in Open(trace(n)) && Sized(jobs, trace(n))
    ensures m >= n && Sized(jobs, trace(m))
    ensures u in Open(trace(n)) && trace(m).locks.phases[u].Holding?
    decreases if trace(n).locks.phases[t].Idle? then 1 else 0
  {
    var turn := NextTurn(pick, |jobs|, t, n);
    Untouched(jobs, trace, pick, n, turn, t);
    OpenShrinks(jobs, trace, pick, n, turn);
    OrderAt(jobs, trace, pick, turn);
    if v :| 0 <= v < |jobs| && trace(turn).locks.phases[v].Holding? {
      m, u := turn, v;
      assert u in Open(trace(turn));
    } else {
      FreeTurn(jobs, trace, pick, turn, t);
      if trace(turn).locks.phases[t].Idle? {
        m, u := SomeoneHolds(jobs, trace, pick, turn + 1, t);
        OpenShrinks(jobs, trace, pick, n, turn + 1);
      } else {
        m, u := turn + 1, t;
      }
    }
  }

  lemma {:induction false} AllFinish(jobs: seq<Job>, trace: Trace, pick: nat -> nat, n: nat) returns (m: nat)
    requires IsTrace(jobs, trace, pick) && Fair(pick, |jobs|) && OrderInv(jobs, trace(0))
    ensures m >= n && Open(trace(m)) == {}
    decreases |Open(trace(n))|
  {
    var open := Open(trace(n));
    m := n;
    assert Next(jobs, trace, pick, n);
    if t :| t in open {
      var k, u := SomeoneHolds(jobs, trace, pick, n, t);
      k := HolderFinishes(jobs, trace, pick, k, u);
      OpenShrinks(jobs, trace, pick, n, k);
      assert Open(trace(k)) <= open - {u};
      SmallerSet(Open(trace(k)), open - {u});
      m := AllFinish(jobs, trace, pick, k);
    }
  }

  lemma {:induction false} SmallerSet(a: set<nat>, b: set<nat>)
    requires a <= b
    ensures |a| <= |b|
  {
    if x :| x in a {
      SmallerSet(a - {x}, b - {x});
    }
  }

  // ---------- Serializability without an assumption ----------

  function Turns(pick: nat -> nat, n: nat): seq<nat> {
    seq(n, i requires 0 <= i < n => pick(i))
  }

  lemma {:induction false} RunSnoc(jobs: seq<Job>, s: Sys, schedule: seq<nat>, t: nat)
    requires |s.pcs| == |s.locks.phases| == |jobs|
    ensures NodeSystem.Run(jobs, s, schedule + [t]) == NodeSystem.Move(jobs, NodeSystem.Run(jobs, s, schedule), t)
    decreases |schedule|
  {
    if schedule == [] {
      assert (schedule + [t])[1..] == [];
    } else {
      assert (schedule + [t])[1..] == schedule[1..] + [t];
      RunSnoc(jobs, NodeSystem.Move(jobs, s, schedule[0]), schedule[1..], t);
    }
  }

  lemma TurnsTrace(jobs: seq<Job>, s: Sys, pick: nat -> nat, trace: Trace)
    requires Sized(jobs, s) && forall n: nat :: trace(n) == NodeSystem.Run(jobs, s, Turns(pick, n))
    ensures IsTrace(jobs, trace, pick)
  {
    forall n: nat ensures Next(jobs, trace, pick, n) {
      RunSnoc(jobs, s, Turns(pick, n), pick(n));
      assert Turns(pick, n + 1) == Turns(pick, n) + [pick(n)];
    }
  }

  /** All calls are answered, and state and answers are those of a serial run of all of them. */
  ghost predicate Served(jobs: seq<Job>, w0: World, s: Sys) {
    && |s.pcs| == |jobs| && Indexed(s.order, |jobs|) && Distinct(s.order)
    && (forall t | 0 <= t < |jobs| :: t in s.order)
    && var (answers, last) := Serial(jobs, s.order, w0);
    && s.world == last && |answers| == |s.order|
    && forall i | 0 <= i < |s.order| :: s.pcs[s.order[i]] == Done(answers[i])
  }

  /**
   * Every fair run of any number of calls comes to a point from which on all of them are answered, and the
   * node is in the state, and every call has the answer, of a serial run.
   */
  lemma FairRunsSerialize(l: Layout, jobs: seq<Job>, w0: World, pick: nat -> nat) returns (m: nat)
    requires WorldFits(l, w0) && forall t | 0 <= t < |jobs| :: JobFits(l, jobs[t])
    requires Fair(pick, |jobs|)
    ensures forall n | n >= m :: Served(jobs, w0, NodeSystem.Run(jobs, Init(jobs, w0), Turns(pick, n)))
  {
    var init := Init(jobs, w0);
    var trace: Trace := (n: nat) => NodeSystem.Run(jobs, init, Turns(pick, n));
    TurnsTrace(jobs, init, pick, trace);
    StartInv(Vols(jobs));
    m := AllFinish(jobs, trace, pick, 0);
    forall n | n >= m ensures Served(jobs, w0, trace(n)) {
      OpenShrinks(jobs, trace, pick, m, n);
      Answered(l, jobs, w0, Turns(pick, n));
    }
  }

  lemma Answered(l: Layout, jobs: seq<Job>, w0: World, schedule: seq<nat>)
    requires WorldFits(l, w0) && forall t | 0 <= t < |jobs| :: JobFits(l, jobs[t])
    requires Open(NodeSystem.Run(jobs, Init(jobs, w0), schedule)) == {}
    ensures Served(jobs, w0, NodeSystem.Run(jobs, Init(jobs, w0), schedule))
  {
    var s := NodeSystem.Run(jobs, Init(jobs, w0), schedule);
    forall t | 0 <= t < |jobs| ensures s.locks.phases[t].Finished? {
      assert t !in Open(s);
    }
    Serializable(l, jobs, w0, schedule);
  }

  /** Whose turn it is when `threads` threads take turns. */
  function TurnOf(threads: nat, n: nat): nat {
    if n == 0 || TurnOf(threads, n - 1) + 1 >= threads then 0 else TurnOf(threads, n - 1) + 1
  }

  /** Taking turns is fair. */
  lemma TurnsAreFair(threads: nat, pick: nat -> nat)
    requires forall n :: pick(n) == TurnOf(threads, n)
    ensures Fair(pick, threads)
  {
    forall t: nat, n: nat | t < threads ensures ComesBack(pick, t, n) {
      var m := TurnComes(threads, t, n);
      assert pick(m) == t;
    }
  }

  lemma {:induction false} TurnComes(threads: nat, t: nat, n: nat) returns (m: nat)
    requires t < threads
    ensures m >= n && TurnOf(threads, m) == t
    decreases if TurnOf(threads, n) <= t then t - TurnOf(threads, n) else threads + t - TurnOf(threads, n)
  {
    TurnBelow(threads, n);
    if TurnOf(threads, n) == t {
      m := n;
    } else {
      m := TurnComes(threads, t, n + 1);
    }
  }

  lemma {:induction false} TurnBelow(threads: nat, n: nat)
    requires threads > 0
    ensures TurnOf(threads, n) < threads
  {}
}
