/**
 * Connecting and disconnecting one NVMe-oF subsystem. What each outside call answers is an oracle,
 * gathered in an environment record per operation.
 */
module Nvme {
  import opened Strings
  import opened Contexts
  import opened PathSort

  /** A call took effect; it failed without effect; it took effect but reported a failure. */
  datatype Outcome = Ok | Lost | Late

  /** Element `i` of an oracle, which answers `d` past its end. */
  function At<T>(s: seq<T>, i: nat, d: T): T {
    if i < |s| then s[i] else d
  }

  /**
   * A subsystem as one host sees it: the connected paths, and the namespaces that the target exports, in
   * the byte order in which a directory listing names their device links.
   */
  datatype Subsystem = Subsystem(paths: seq<NvmePath>, spaces: seq<string>)

  const NO_SUBSYSTEM := Subsystem([], [])
  const POLLS: nat := 20

  /** The namespaces that have a device link: those exported, as long as any path is connected. */
  function Visible(sub: Subsystem): seq<string> {
    if sub.paths == [] then [] else sub.spaces
  }

  function Addrs(paths: seq<NvmePath>): seq<Addr> {
    seq(|paths|, i requires 0 <= i < |paths| => paths[i].addr)
  }

  function Without(paths: seq<NvmePath>, a: Addr): (r: seq<NvmePath>)
    ensures forall p :: p in r <==> p in paths && p.addr != a
  {
    if paths == [] then []
    else (if paths[0].addr == a then [] else [paths[0]]) + Without(paths[1..], a)
  }

  /** The device link of a namespace; a volume's context names the model and the namespace. */
  function DeviceLink(model: string, space: string): string {
    "/dev/disk/by-id/nvme-" + model + "_" + space
  }

  /** Text used as a word of a command line or a file name. */
  function Word(t: Text): string {
    match t
    case Plain(s) => s
    case Encoded(_) => "{}"
  }

  // ---------- Waiting for device links ----------

  /** The first listed namespace that the pattern ending in `nsId` followed by anything matches. */
  function FirstMatch(nsId: string, names: seq<string>): Option<string> {
    if names == [] then None
    else if nsId <= names[0] then Some(names[0])
    else FirstMatch(nsId, names[1..])
  }

  /** Byte order of strings. */
  predicate LessEq(a: string, b: string) {
    a == "" || (b != "" && (a[0] < b[0] || (a[0] == b[0] && LessEq(a[1..], b[1..]))))
  }

  ghost predicate Sorted(names: seq<string>) {
    && (forall i, j | 0 <= i < j < |names| :: LessEq(names[i], names[j]) && names[i] != names[j])
  }

  lemma {:induction false} PrefixFirst(p: string, s: string)
    requires p <= s && LessEq(s, p)
    ensures s == p
  {
    if p != "" {
      PrefixFirst(p[1..], s[1..]);
    }
  }

  lemma {:induction false} MatchListed(nsId: string, names: seq<string>)
    ensures match FirstMatch(nsId, names)
            case Some(n) => n in names && nsId <= n
            case None => forall n | n in names :: !(nsId <= n)
  {
    if names != [] {
      MatchListed(nsId, names[1..]);
      assert names == [names[0]] + names[1..];
    }
  }

  /**
   * The pattern for one namespace also matches longer numbers that start with it. The link found is the
   * volume's own exactly when that link is there; otherwise it is a longer one, if there is any.
   */
  lemma {:induction false} FirstMatchExact(nsId: string, names: seq<string>)
    requires Sorted(names)
    ensures FirstMatch(nsId, names) == Some(nsId) <==> nsId in names
    ensures FirstMatch(nsId, names).None? <==> forall n | n in names :: !(nsId <= n)
  {
    MatchListed(nsId, names);
    if nsId in names {
      OwnMatch(nsId, names);
    }
  }

  lemma {:induction false} OwnMatch(nsId: string, names: seq<string>)
    requires Sorted(names) && nsId in names
    ensures FirstMatch(nsId, names) == Some(nsId)
  {
    var rest := names[1..];
    assert names == [names[0]] + rest;
    var j :| 0 <= j < |names| && names[j] == nsId;
    if j > 0 && nsId <= names[0] {
      PrefixFirst(nsId, names[0]);
    } else if j > 0 {
      assert nsId == rest[j - 1];
      assert forall i, k | 0 <= i < k < |rest| :: rest[i] == names[i + 1] && rest[k] == names[k + 1];
      OwnMatch(nsId, rest);
    }
  }

  /** `waitForDeviceReady`: the links show up `lag` polls after the device exists. */
  function Await(nsId: string, sub: Subsystem, lag: nat): Option<string> {
    if lag <= POLLS then FirstMatch(nsId, Visible(sub)) else None
  }

  /** `waitForDeviceGone`: links that were listed linger for `lag` polls after the last path is gone. */
  predicate Gone(sub: Subsystem, listed: bool, lag: nat) {
    Visible(sub) == [] && (listed ==> lag <= POLLS)
  }

  // ---------- Tearing a device's paths down ----------

  datatype TeardownEnv = TeardownEnv(resolves: bool, lists: bool, swaps: seq<(nat, nat)>, cmds: seq<Outcome>)

  /** One `nvme disconnect`: a failed command is only logged. */
  function DropPath(paths: seq<NvmePath>, a: Addr, o: Outcome): seq<NvmePath> {
    if o == Lost then paths else Without(paths, a)
  }

  /** The commands for `order`, from number `k` on. */
  function DropFrom(paths: seq<NvmePath>, order: seq<NvmePath>, cmds: seq<Outcome>, k: nat): seq<NvmePath>
    decreases |order| - k
  {
    if k >= |order| then paths
    else DropFrom(DropPath(paths, order[k].addr, At(cmds, k, Ok)), order, cmds, k + 1)
  }

  /** `disconnectDevicePath`: fails only if the device or its subsystem cannot be looked up. */
  function DisconnectDevicePath(sub: Subsystem, env: TeardownEnv): (Subsystem, bool) {
    if !env.resolves || !env.lists then (sub, false)
    else (sub.(paths := DropFrom(sub.paths, SortSlice(sub.paths, env.swaps), env.cmds, 0)), true)
  }

  predicate AllEffective(cmds: seq<Outcome>) {
    forall k | 0 <= k < |cmds| :: cmds[k] != Lost
  }

  lemma {:induction false} DropFromMembers(paths: seq<NvmePath>, order: seq<NvmePath>, cmds: seq<Outcome>, k: nat)
    requires k <= |order|
    ensures forall p | p in DropFrom(paths, order, cmds, k) :: p in paths
    ensures AllEffective(cmds) ==> forall p | p in DropFrom(paths, order, cmds, k) :: p !in order[k..]
    decreases |order| - k
  {
    if k < |order| {
      var next := DropPath(paths, order[k].addr, At(cmds, k, Ok));
      DropFromMembers(next, order, cmds, k + 1);
      assert order[k..] == [order[k]] + order[k + 1..];
    }
  }

  /** Every path gets one command, whatever the commands answer; if they all take effect none is left. */
  lemma TeardownEmpties(sub: Subsystem, env: TeardownEnv)
    requires env.resolves && env.lists
    ensures multiset(SortSlice(sub.paths, env.swaps)) == multiset(sub.paths)
    ensures forall p | p in DisconnectDevicePath(sub, env).0.paths :: p in sub.paths
    ensures AllEffective(env.cmds) ==> DisconnectDevicePath(sub, env).0.paths == []
  {
    var order := SortSlice(sub.paths, env.swaps);
    SortSlicePermutes(sub.paths, env.swaps);
    DropFromMembers(sub.paths, order, env.cmds, 0);
    var left := DropFrom(sub.paths, order, env.cmds, 0);
    assert order[0..] == order;
    forall p | AllEffective(env.cmds) ensures p !in left {
      assert p in sub.paths <==> p in multiset(sub.paths);
      assert p in order <==> p in multiset(order);
    }
    assert left != [] ==> left[0] in left;
  }

  // ---------- Disconnect ----------

  datatype DisconnectEnv = DisconnectEnv(down: TeardownEnv, lag: nat)

  /** Disconnect backs off while the subsystem shows more than one device. */
  function Disconnect(sub: Subsystem, env: DisconnectEnv): (Subsystem, bool) {
    var listed := |Visible(sub)|;
    if listed > 1 then (sub, true)
    else if listed == 1 then
      var (down, ok) := DisconnectDevicePath(sub, env.down);
      (down, ok && Gone(down, true, env.lag))
    else (sub, Gone(sub, false, env.lag))
  }

  /** Success means that no device of the subsystem is left, or that several were there and all stay. */
  lemma DisconnectDone(sub: Subsystem, env: DisconnectEnv)
    requires Disconnect(sub, env).1
    ensures |Visible(sub)| > 1 ==> Disconnect(sub, env).0 == sub
    ensures |Visible(sub)| <= 1 ==> Visible(Disconnect(sub, env).0) == []
  {}

  // ---------- Connect ----------

  datatype ConnectEnv = ConnectEnv(
    lists: bool,                    // `nvme list-subsys` answers
    fetched: Option<seq<string>>,   // addresses from the API; none if the client or the call fails
    tries: seq<seq<Outcome>>,       // per connection, what each attempt does
    roles: seq<string>,             // access state of each new path
    primaryLag: nat,                // polls until the primary's link shows up, for the rollback
    rollback: TeardownEnv,
    lag: nat)                       // polls until the volume's link shows up

  datatype LoopEnd = Complete | Broken(index: nat) | Panicked

  /** One `nvme connect`; the host refuses an address that the subsystem already has. */
  function TryOnce(paths: seq<NvmePath>, p: NvmePath, o: Outcome): (seq<NvmePath>, bool) {
    if o == Lost || p.addr in Addrs(paths) then (paths, false) else (paths + [p], o == Ok)
  }

  /** `execWithTimeoutRetry`: attempts `a`, `a + 1`, ... below `n`, until one succeeds. */
  function TryFrom(paths: seq<NvmePath>, p: NvmePath, outs: seq<Outcome>, a: nat, n: nat): (seq<NvmePath>, bool)
    decreases n - a
  {
    if a >= n then (paths, false)
    else
      var (next, ok) := TryOnce(paths, p, At(outs, a, Ok));
      if ok then (next, true) else TryFrom(next, p, outs, a + 1, n)
  }

  function NewPath(init: Initiator, ips: seq<string>, roles: seq<string>, i: nat): NvmePath
    requires i < |init.connections| && i < |ips|
  {
    NvmePath(Addr(ips[i], init.connections[i].port), At(roles, i, OPTIMIZED), "live")
  }

  /** The connect loop from connection `i` on. */
  function ConnectFrom(init: Initiator, env: ConnectEnv, ips: seq<string>, paths: seq<NvmePath>, i: nat)
    : (seq<NvmePath>, LoopEnd)
    decreases |init.connections| - i
  {
    var n := |init.connections|;
    if i >= n then (paths, Complete)
    else if i >= |ips| then (paths, Panicked)
    else
      var (next, ok) := TryFrom(paths, NewPath(init, ips, env.roles, i), At(env.tries, i, []), 0, n);
      if ok then ConnectFrom(init, env, ips, next, i + 1) else (next, Broken(i))
  }

  /** Undoing the primary path after the secondary failed: its device is looked up first. */
  function RollBackPrimary(init: Initiator, sub: Subsystem, env: ConnectEnv): Subsystem {
    if Await(Word(init.nsId), sub, env.primaryLag).None? then sub
    else DisconnectDevicePath(sub, env.rollback).0
  }

  /** Connect returns the namespace whose device it found, or nothing for an error. */
  function Connect(init: Initiator, sub: Subsystem, env: ConnectEnv): (Subsystem, Option<string>) {
    if !env.lists then (sub, None)
    else if sub.paths != [] then (sub, Await(Word(init.nsId), sub, env.lag))
    else if env.fetched.None? then (sub, None)
    else
      var (paths, end) := ConnectFrom(init, env, env.fetched.value, sub.paths, 0);
      var up := sub.(paths := paths);
      match end
      case Complete => (up, Await(Word(init.nsId), up, env.lag))
      case Broken(i) => (if i == 1 then RollBackPrimary(init, up, env) else up, None)
      case Panicked => (up, None)
  }

  /** Connection `i` of the volume: the address the API gives now with the port that was stashed. */
  function Targets(init: Initiator, ips: seq<string>): seq<Addr>
    requires |ips| >= |init.connections|
  {
    seq(|init.connections|, i requires 0 <= i < |init.connections| => Addr(ips[i], init.connections[i].port))
  }

  /** No attempt takes effect and still fails. */
  ghost predicate Clean(tries: seq<seq<Outcome>>) {
    forall i, a | 0 <= i < |tries| && 0 <= a < |tries[i]| :: tries[i][a] != Late
  }

  lemma {:induction false} TryFromClean(paths: seq<NvmePath>, p: NvmePath, outs: seq<Outcome>, a: nat, n: nat)
    requires forall k | 0 <= k < |outs| :: outs[k] != Late
    ensures TryFrom(paths, p, outs, a, n).0 == if TryFrom(paths, p, outs, a, n).1 then paths + [p] else paths
    decreases n - a
  {
    if a < n {
      TryFromClean(paths, p, outs, a + 1, n);
    }
  }

  lemma {:induction false} ConnectFromClean(
    init: Initiator, env: ConnectEnv, ips: seq<string>, paths: seq<NvmePath>, i: nat)
    requires |ips| >= |init.connections| && i <= |init.connections| && Clean(env.tries)
    requires Addrs(paths) == Targets(init, ips)[..i]
    ensures var (left, end) := ConnectFrom(init, env, ips, paths, i);
            match end
            case Complete => Addrs(left) == Targets(init, ips)
            case Broken(k) => i <= k < |init.connections| && Addrs(left) == Targets(init, ips)[..k]
            case Panicked => false
    decreases |init.connections| - i
  {
    var n := |init.connections|;
    if i < n {
      var p, outs := NewPath(init, ips, env.roles, i), At(env.tries, i, []);
      TryFromClean(paths, p, outs, 0, n);
      var (next, ok) := TryFrom(paths, p, outs, 0, n);
      if ok {
        assert Addrs(paths + [p]) == Addrs(paths) + [p.addr];
        assert Targets(init, ips)[..i + 1] == Targets(init, ips)[..i] + [p.addr];
        ConnectFromClean(init, env, ips, next, i + 1);
      }
    } else {
      assert Targets(init, ips)[..i] == Targets(init, ips);
    }
  }

  /** Without late effects, the attempts fail exactly when the address is taken or every one of them is lost. */
  lemma {:induction false} TryFromSucceeds(paths: seq<NvmePath>, p: NvmePath, outs: seq<Outcome>, a: nat, n: nat)
    requires forall k | 0 <= k < |outs| :: outs[k] != Late
    ensures TryFrom(paths, p, outs, a, n).1
       <==> p.addr !in Addrs(paths) && exists k | a <= k < n :: At(outs, k, Ok) != Lost
    decreases n - a
  {
    if a < n {
      TryFromSucceeds(paths, p, outs, a + 1, n);
    }
  }

  /** Connection `k` cannot be made: an earlier one has its address, or all its attempts are lost. */
  predicate Refused(init: Initiator, env: ConnectEnv, ips: seq<string>, k: nat)
    requires k < |init.connections| <= |ips|
  {
    || Targets(init, ips)[k] in Targets(init, ips)[..k]
    || forall a | 0 <= a < |init.connections| :: At(At(env.tries, k, []), a, Ok) == Lost
  }

  predicate FirstRefused(init: Initiator, env: ConnectEnv, ips: seq<string>, i: nat, k: nat)
    requires i <= k < |init.connections| <= |ips|
  {
    Refused(init, env, ips, k) && forall j | i <= j < k :: !Refused(init, env, ips, j)
  }

  /** The loop stops exactly at the first connection that cannot be made. */
  lemma {:induction false} BreaksExactly(
    init: Initiator, env: ConnectEnv, ips: seq<string>, paths: seq<NvmePath>, i: nat)
    requires i <= |init.connections| <= |ips| && Clean(env.tries)
    requires Addrs(paths) == Targets(init, ips)[..i]
    ensures forall k | i <= k < |init.connections| ::
              ConnectFrom(init, env, ips, paths, i).1 == Broken(k) <==> FirstRefused(init, env, ips, i, k)
    decreases |init.connections| - i
  {
    var n := |init.connections|;
    if i < n {
      var p, outs := NewPath(init, ips, env.roles, i), At(env.tries, i, []);
      TryFromClean(paths, p, outs, 0, n);
      TryFromSucceeds(paths, p, outs, 0, n);
      assert p.addr == Targets(init, ips)[i];
      var (next, ok) := TryFrom(paths, p, outs, 0, n);
      assert ok <==> !Refused(init, env, ips, i);
      if ok {
        assert Addrs(paths + [p]) == Addrs(paths) + [p.addr];
        assert Targets(init, ips)[..i + 1] == Targets(init, ips)[..i] + [p.addr];
        ConnectFromClean(init, env, ips, next, i + 1);
        BreaksExactly(init, env, ips, next, i + 1);
        assert ConnectFrom(init, env, ips, paths, i) == ConnectFrom(init, env, ips, next, i + 1);
        forall k | i < k < n
          ensures FirstRefused(init, env, ips, i, k) <==> FirstRefused(init, env, ips, i + 1, k)
        {
        }
      }
    }
  }

  /** The rollback's own calls work: the device is found and looked up, and the one command is not lost. */
  predicate RollbackWorks(init: Initiator, sub: Subsystem, env: ConnectEnv) {
    && env.primaryLag <= POLLS && FirstMatch(Word(init.nsId), sub.spaces).Some?
    && env.rollback.resolves && env.rollback.lists && At(env.rollback.cmds, 0, Ok) != Lost
  }

  /**
   * Connect from a disconnected subsystem, for any number of connections. If every connection can be made,
   * exactly the wanted addresses are there, in order. Otherwise Connect reports an error, and with `k` the
   * first connection that cannot be made, nothing is left when `k` is 0, or when `k` is 1 and the
   * rollback's calls work, and exactly the first `k` addresses in all other cases.
   */
  lemma ConnectAllOrNothing(init: Initiator, sub: Subsystem, env: ConnectEnv)
    requires sub.paths == [] && env.lists && env.fetched.Some?
    requires |init.connections| <= |env.fetched.value| && Clean(env.tries)
    ensures var ips := env.fetched.value;
            var targets := Targets(init, ips);
            var (after, device) := Connect(init, sub, env);
            && after.spaces == sub.spaces
            && (device.Some? ==> Addrs(after.paths) == targets && device.value in sub.spaces)
            && ((forall k | 0 <= k < |init.connections| :: !Refused(init, env, ips, k)) ==>
                  Addrs(after.paths) == targets)
            && (forall k | 0 <= k < |init.connections| && FirstRefused(init, env, ips, 0, k) ::
                  && device == None
                  && Addrs(after.paths) == if k == 1 && RollbackWorks(init, sub, env) then [] else targets[..k])
  {
    var ips := env.fetched.value;
    var targets := Targets(init, ips);
    assert Addrs([]) == targets[..0];
    ConnectFromClean(init, env, ips, [], 0);
    BreaksExactly(init, env, ips, [], 0);
    var (paths, end) := ConnectFrom(init, env, ips, [], 0);
    var up := sub.(paths := paths);
    MatchListed(Word(init.nsId), sub.spaces);
    if end == Broken(1) {
      assert |paths| == |Addrs(paths)| == 1;
      OnePathDown(up, env.rollback);
    }
  }

  lemma {:induction false} SomeFirstRefused(init: Initiator, env: ConnectEnv, ips: seq<string>, k: nat)
    returns (first: nat)
    requires k < |init.connections| <= |ips| && Refused(init, env, ips, k)
    ensures first <= k && FirstRefused(init, env, ips, 0, first)
  {
    first := k;
    if j :| 0 <= j < k && Refused(init, env, ips, j) {
      first := SomeFirstRefused(init, env, ips, j);
    }
  }

  /**
   * With at most two connections, for every pattern of faults: an error of the loop leaves no path exactly
   * when it comes from the first connection or the rollback works.
   */
  lemma TwoAllOrNothing(init: Initiator, sub: Subsystem, env: ConnectEnv, k: nat)
    requires sub.paths == [] && env.lists && env.fetched.Some? && Clean(env.tries)
    requires k < |init.connections| <= 2 && |init.connections| <= |env.fetched.value|
    requires Refused(init, env, env.fetched.value, k)
    ensures Connect(init, sub, env).1 == None
    ensures Connect(init, sub, env).0.paths == []
       <==> Refused(init, env, env.fetched.value, 0) || RollbackWorks(init, sub, env)
  {
    var first := SomeFirstRefused(init, env, env.fetched.value, k);
    ConnectAllOrNothing(init, sub, env);
    var left := Connect(init, sub, env).0.paths;
    assert |left| == |Addrs(left)|;
  }

  /** Two is the most: with more connections an error at the third leaves two paths, rollback or not. */
  lemma ThirdConnectionLeavesTwo(init: Initiator, sub: Subsystem, ips: seq<string>, down: TeardownEnv)
    requires |init.connections| >= 3 && sub.paths == [] && |ips| >= |init.connections|
    requires Targets(init, ips)[0] != Targets(init, ips)[1]
    ensures var lost := seq(|init.connections|, a => Lost);
            var env := ConnectEnv(true, Some(ips), [[], [], lost], [], 0, down, 0);
            Connect(init, sub, env).1 == None && Addrs(Connect(init, sub, env).0.paths) == Targets(init, ips)[..2]
  {
    var lost := seq(|init.connections|, a => Lost);
    var env := ConnectEnv(true, Some(ips), [[], [], lost], [], 0, down, 0);
    ConnectAllOrNothing(init, sub, env);
    var nothing: seq<Outcome> := [];
    assert At(env.tries, 0, []) == nothing == At(env.tries, 1, []) && At(nothing, 0, Ok) == Ok;
    assert At(env.tries, 2, []) == lost;
    assert FirstRefused(init, env, ips, 0, 2);
  }

  lemma OnlyOrder(p: NvmePath, swaps: seq<(nat, nat)>)
    ensures SortSlice([p], swaps) == [p]
  {
    var order := SortSlice([p], swaps);
    SortSlicePermutes([p], swaps);
    assert |order| == |multiset(order)| == 1;
    assert order[0] in multiset(order);
    assert order == [order[0]];
  }

  lemma OnePathDown(sub: Subsystem, env: TeardownEnv)
    requires |sub.paths| == 1
    ensures env.resolves && env.lists ==>
              DisconnectDevicePath(sub, env).0.paths == if At(env.cmds, 0, Ok) == Lost then sub.paths else []
  {
    var p := sub.paths[0];
    assert sub.paths == [p];
    OnlyOrder(p, env.swaps);
    assert Without([p], p.addr) == [];
    assert DropFrom([p], [p], env.cmds, 0) == DropPath([p], p.addr, At(env.cmds, 0, Ok));
  }

  // ---------- The device Connect ends with ----------

  /** Connect only ever ends with a visible device whose namespace starts with the wanted number. */
  lemma ConnectShows(init: Initiator, sub: Subsystem, env: ConnectEnv)
    ensures var (after, device) := Connect(init, sub, env);
            && after.spaces == sub.spaces
            && (device.Some? ==> device.value in Visible(after) && Word(init.nsId) <= device.value)
            && (sub.paths != [] ==> after == sub)
  {
    MatchListed(Word(init.nsId), sub.spaces);
  }

  /** Every connection of a disconnected subsystem can be made, or one is there already. */
  ghost predicate Reaches(init: Initiator, sub: Subsystem, env: ConnectEnv) {
    || sub.paths != []
    || (&& env.fetched.Some? && 0 < |init.connections| <= |env.fetched.value|
        && forall k | 0 <= k < |init.connections| :: !Refused(init, env, env.fetched.value, k))
  }

  /** As long as the volume's own namespace is exported, Connect ends with it or not at all, and exactly when. */
  lemma ConnectFindsOwn(init: Initiator, sub: Subsystem, env: ConnectEnv)
    requires Sorted(sub.spaces) && Word(init.nsId) in sub.spaces
    ensures Connect(init, sub, env).1.Some? ==> Connect(init, sub, env).1 == Some(Word(init.nsId))
    ensures Clean(env.tries) ==>
              (Connect(init, sub, env).1.Some? <==> env.lists && Reaches(init, sub, env) && env.lag <= POLLS)
  {
    OwnMatch(Word(init.nsId), sub.spaces);
    if Clean(env.tries) && env.lists && sub.paths == [] && env.fetched.Some? {
      ConnectReaches(init, sub, env);
    }
  }

  lemma ConnectReaches(init: Initiator, sub: Subsystem, env: ConnectEnv)
    requires Clean(env.tries) && env.lists && sub.paths == [] && env.fetched.Some?
    ensures var (paths, end) := ConnectFrom(init, env, env.fetched.value, [], 0);
            paths != [] && end == Complete <==> Reaches(init, sub, env)
  {
    var ips := env.fetched.value;
    if |init.connections| <= |ips| {
      assert Addrs([]) == Targets(init, ips)[..0];
      ConnectFromClean(init, env, ips, [], 0);
      BreaksExactly(init, env, ips, [], 0);
      var (paths, end) := ConnectFrom(init, env, ips, [], 0);
      assert |paths| == |Addrs(paths)|;
      if k :| 0 <= k < |init.connections| && Refused(init, env, ips, k) {
        var first := SomeFirstRefused(init, env, ips, k);
      }
    } else {
      TooFewAddresses(init, env, ips, [], 0);
    }
  }

  lemma {:induction false} TooFewAddresses(
    init: Initiator, env: ConnectEnv, ips: seq<string>, paths: seq<NvmePath>, i: nat)
    requires i <= |ips| < |init.connections|
    ensures ConnectFrom(init, env, ips, paths, i).1 != Complete
    decreases |ips| - i
  {
    if i < |ips| {
      var outs := At(env.tries, i, []);
      var (next, ok) := TryFrom(paths, NewPath(init, ips, env.roles, i), outs, 0, |init.connections|);
      TooFewAddresses(init, env, ips, next, i + 1);
    }
  }

  // ---------- Several volumes on one subsystem ----------

  /** While the subsystem is connected, Connect for whichever volume changes no path. */
  lemma ConnectKeepsDevices(init: Initiator, sub: Subsystem, env: ConnectEnv)
    requires sub.paths != []
    ensures Connect(init, sub, env).0 == sub
  {}

  /** For every path some command for its address takes effect. */
  ghost predicate EveryPathHit(sub: Subsystem, env: TeardownEnv) {
    var order := SortSlice(sub.paths, env.swaps);
    forall p | p in sub.paths :: exists k | 0 <= k < |order| :: order[k].addr == p.addr && At(env.cmds, k, Ok) != Lost
  }

  lemma {:induction false} DropFromExact(
    paths: seq<NvmePath>, order: seq<NvmePath>, cmds: seq<Outcome>, k: nat, p: NvmePath)
    ensures p in DropFrom(paths, order, cmds, k)
       <==> p in paths && forall j | k <= j < |order| && order[j].addr == p.addr :: At(cmds, j, Ok) == Lost
    decreases |order| - k
  {
    if k < |order| {
      DropFromExact(DropPath(paths, order[k].addr, At(cmds, k, Ok)), order, cmds, k + 1, p);
    }
  }

  /** Exactly when no path is left: the device can be looked up and every path is hit. */
  lemma TeardownExactly(sub: Subsystem, env: TeardownEnv)
    ensures DisconnectDevicePath(sub, env).0.paths == []
       <==> sub.paths == [] || (env.resolves && env.lists && EveryPathHit(sub, env))
  {
    var order := SortSlice(sub.paths, env.swaps);
    var left := DropFrom(sub.paths, order, env.cmds, 0);
    forall p ensures p in left
        <==> p in sub.paths && forall j | 0 <= j < |order| && order[j].addr == p.addr :: At(env.cmds, j, Ok) == Lost
    {
      DropFromExact(sub.paths, order, env.cmds, 0, p);
    }
    assert left != [] ==> left[0] in left;
  }

  /**
   * Disconnect removes another volume's visible device exactly when that device is the only one visible,
   * it can be looked up, and every path is hit; with the own device also visible it never does.
   */
  lemma DisconnectTakesOther(sub: Subsystem, env: DisconnectEnv, other: string)
    requires other in Visible(sub)
    ensures other !in Visible(Disconnect(sub, env).0)
       <==> Visible(sub) == [other] && env.down.resolves && env.down.lists && EveryPathHit(sub, env.down)
  {
    TeardownExactly(sub, env.down);
    assert |Visible(sub)| == 1 ==> Visible(sub) == [Visible(sub)[0]];
  }
}
