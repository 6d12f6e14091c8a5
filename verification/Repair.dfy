/** The connection monitor: finding subsystems that are down to one path and connecting the missing one. */
module Repair {
  import opened Strings
  import opened Identifiers
  import opened PathSort
  import opened Nvme
  import opened NvmeHosts
  import opened Tables

  const NON_OPTIMIZED: string := "non-optimized"
  const RECHECKS: nat := 5

  datatype ApiConn = ApiConn(nqn: string, addr: Addr)
  datatype NodeInfo = NodeInfo(nodeID: string, nodes: seq<string>)

  /** What the API says when node number `j` of the volume is looked at. */
  datatype VisitEnv = VisitEnv(online: bool, conns: Option<seq<ApiConn>>)

  datatype CheckEnv = CheckEnv(
    client: bool, info: Option<NodeInfo>, visits: seq<VisitEnv>, role: string, down: Outcome, up: Outcome)

  datatype Cmd =
    | ConnectCmd(nqn: string, addr: Addr, lossTmo: int)
    | DisconnectCmd(nqn: string, addr: Addr)

  function ShouldConnectToNode(ana: string, current: string, target: string): bool {
    if ana == OPTIMIZED then current != target else current == target
  }

  function VisitOf(env: CheckEnv, j: nat): VisitEnv {
    At(env.visits, j, VisitEnv(false, None))
  }

  // ---------- checkOnlineNode ----------

  datatype Decision = Nothing | Add(conn: ApiConn) | Swap(conn: ApiConn)

  /** What one node's visit leads to; nothing means: look at the next node. */
  function Judge(p: NvmePath, info: NodeInfo, j: nat, visit: VisitEnv): Decision
    requires j < |info.nodes|
  {
    if |info.nodeID| > 1 && !ShouldConnectToNode(p.ana, info.nodeID, info.nodes[j]) then Nothing
    else if !visit.online || visit.conns.None? || visit.conns.value == [] then Nothing
    else
      var conns := visit.conns.value;
      var conn := conns[if p.ana == OPTIMIZED && |conns| > 1 then 1 else 0];
      if |conns| > 1 then Add(conn)
      else if conn.addr.ip != ParseAddress(AddressLine(p.addr.ip, p.addr.port)) then Swap(conn)
      else Nothing
  }

  function DecideFrom(p: NvmePath, info: NodeInfo, env: CheckEnv, j: nat): Decision
    decreases |info.nodes| - j
  {
    if j >= |info.nodes| then Nothing
    else
      var d := Judge(p, info, j, VisitOf(env, j));
      if d != Nothing then d else DecideFrom(p, info, env, j + 1)
  }

  type Subs = map<string, Subsystem>

  function SubIn(subs: Subs, nqn: string): Subsystem {
    Get(subs, nqn, NO_SUBSYSTEM)
  }

  function SetPaths(subs: Subs, nqn: string, paths: seq<NvmePath>): Subs {
    Put(subs, nqn, NO_SUBSYSTEM, SubIn(subs, nqn).(paths := paths))
  }

  /** connectViaNVMe */
  function Dial(subs: Subs, c: ApiConn, env: CheckEnv): (Subs, bool) {
    var (paths, ok) := TryOnce(SubIn(subs, c.nqn).paths, NvmePath(c.addr, env.role, "live"), env.up);
    (SetPaths(subs, c.nqn, paths), ok)
  }

  /** The new state, the commands issued in order, and whether an error is reported. */
  function CheckOnlineNode(subs: Subs, nqn: string, p: NvmePath, env: CheckEnv): (Subs, seq<Cmd>, bool) {
    if !env.client || env.info.None? then (subs, [], false)
    else
      match DecideFrom(p, env.info.value, env, 0)
      case Nothing => (subs, [], true)
      case Add(c) =>
        var (after, ok) := Dial(subs, c, env);
        (after, [ConnectCmd(c.nqn, c.addr, 60)], ok)
      case Swap(c) =>
        var dropped := SetPaths(subs, nqn, DropPath(SubIn(subs, nqn).paths, p.addr, env.down));
        if env.down != Ok then (dropped, [DisconnectCmd(nqn, p.addr)], false)
        else
          var (after, ok) := Dial(dropped, c, env);
          (after, [DisconnectCmd(nqn, p.addr), ConnectCmd(c.nqn, c.addr, 900)], ok)
  }

  lemma {:induction false} DecisionSource(p: NvmePath, info: NodeInfo, env: CheckEnv, j: nat)
    ensures match DecideFrom(p, info, env, j)
            case Nothing => true
            case d => exists k | j <= k < |info.nodes| :: Judge(p, info, k, VisitOf(env, k)) == d
    decreases |info.nodes| - j
  {
    if j < |info.nodes| {
      if Judge(p, info, j, VisitOf(env, j)) == Nothing {
        DecisionSource(p, info, env, j + 1);
      }
    }
  }

  /** All the connection lists that the API hands out in this call have at least two entries. */
  ghost predicate ListsTwo(env: CheckEnv) {
    forall v | v in env.visits && v.conns.Some? :: |v.conns.value| >= 2
  }

  /**
   * One repair call issues at most one connect and at most one disconnect, the disconnect first and only
   * of the path it was called for, and only after the API listed a single connection with another IP.
   */
  lemma RepairCommands(subs: Subs, nqn: string, p: NvmePath, env: CheckEnv)
    requires ',' !in p.addr.ip
    ensures var cmds := CheckOnlineNode(subs, nqn, p, env).1;
            && |cmds| <= 2
            && (forall i | 0 <= i < |cmds| ::
                  cmds[i].DisconnectCmd? <==> i == 0 && cmds[i] == DisconnectCmd(nqn, p.addr))
            && (cmds != [] && cmds[0].DisconnectCmd? ==>
                  exists v | v in env.visits ::
                    && v.online && v.conns.Some? && |v.conns.value| == 1
                    && v.conns.value[0].addr.ip != p.addr.ip
                    && (|cmds| == 2 ==> cmds[1] == ConnectCmd(v.conns.value[0].nqn, v.conns.value[0].addr, 900)))
            && (|cmds| == 2 ==> cmds[0].DisconnectCmd?)
  {
    if env.client && env.info.Some? {
      var info := env.info.value;
      DecisionSource(p, info, env, 0);
      AddressRoundTrip(p.addr.ip, p.addr.port);
      var d := DecideFrom(p, info, env, 0);
      if d.Swap? {
        var k :| 0 <= k < |info.nodes| && Judge(p, info, k, VisitOf(env, k)) == d;
        assert VisitOf(env, k) in env.visits;
      }
    }
  }

  /** With two or more listed connections no path of any subsystem is ever lost. */
  lemma RepairNeverDrops(subs: Subs, nqn: string, p: NvmePath, env: CheckEnv, other: string)
    requires ListsTwo(env)
    ensures SubIn(subs, other).paths <= SubIn(CheckOnlineNode(subs, nqn, p, env).0, other).paths
  {
    if env.client && env.info.Some? {
      var info := env.info.value;
      DecisionSource(p, info, env, 0);
      var d := DecideFrom(p, info, env, 0);
      if d != Nothing {
        var k :| 0 <= k < |info.nodes| && Judge(p, info, k, VisitOf(env, k)) == d;
        assert VisitOf(env, k) in env.visits;
      }
    }
  }

  // ---------- Which node decides, and what it leads to ----------

  /**
   * Node `k` has the role that the surviving path does not have: beside an optimized path any node but the
   * volume's primary one, beside another path the primary one. Without a primary every node will do.
   */
  ghost predicate MissingRole(ana: string, info: NodeInfo, k: nat)
    requires k < |info.nodes|
  {
    || |info.nodeID| <= 1
    || (if ana == "optimized" then info.nodes[k] != info.nodeID else info.nodes[k] == info.nodeID)
  }

  /** Node `k` is in that role and online, and the API then lists several connections, or one with a new IP. */
  ghost predicate Calls(p: NvmePath, info: NodeInfo, env: CheckEnv, k: nat)
    requires k < |info.nodes|
  {
    && MissingRole(p.ana, info, k) && k < |env.visits| && env.visits[k].online && env.visits[k].conns.Some?
    && var conns := env.visits[k].conns.value;
       |conns| > 1 || (|conns| == 1 && conns[0].addr.ip != p.addr.ip)
  }

  ghost predicate FirstCalls(p: NvmePath, info: NodeInfo, env: CheckEnv, k: nat) {
    k < |info.nodes| && Calls(p, info, env, k) && forall j | 0 <= j < k :: !Calls(p, info, env, j)
  }

  lemma JudgeCalls(p: NvmePath, info: NodeInfo, env: CheckEnv, k: nat)
    requires k < |info.nodes| && ',' !in p.addr.ip
    ensures Judge(p, info, k, VisitOf(env, k)) != Nothing <==> Calls(p, info, env, k)
    ensures Calls(p, info, env, k) ==>
              var conns := env.visits[k].conns.value;
              Judge(p, info, k, VisitOf(env, k))
              == if |conns| == 1 then Swap(conns[0]) else Add(conns[if p.ana == "optimized" then 1 else 0])
  {
    AddressRoundTrip(p.addr.ip, p.addr.port);
  }

  lemma {:induction false} FirstDecides(p: NvmePath, info: NodeInfo, env: CheckEnv, j: nat, k: nat)
    requires ',' !in p.addr.ip && j <= k < |info.nodes| && Calls(p, info, env, k)
    requires forall i | j <= i < k :: !Calls(p, info, env, i)
    ensures DecideFrom(p, info, env, j) == Judge(p, info, k, VisitOf(env, k))
    decreases k - j
  {
    JudgeCalls(p, info, env, j);
    if j < k {
      FirstDecides(p, info, env, j + 1, k);
    }
  }

  lemma {:induction false} NobodyDecides(p: NvmePath, info: NodeInfo, env: CheckEnv, j: nat)
    requires ',' !in p.addr.ip && forall k | j <= k < |info.nodes| :: !Calls(p, info, env, k)
    ensures DecideFrom(p, info, env, j) == Nothing
    decreases |info.nodes| - j
  {
    if j < |info.nodes| {
      JudgeCalls(p, info, env, j);
      NobodyDecides(p, info, env, j + 1);
    }
  }

  /** While no node in the missing role is online and lists anything new, no command is issued. */
  lemma NobodyCalls(subs: Subs, nqn: string, p: NvmePath, env: CheckEnv)
    requires ',' !in p.addr.ip
    requires env.client && env.info.Some? ==>
               forall k | 0 <= k < |env.info.value.nodes| :: !Calls(p, env.info.value, env, k)
    ensures CheckOnlineNode(subs, nqn, p, env) == (subs, [], env.client && env.info.Some?)
  {
    if env.client && env.info.Some? {
      NobodyDecides(p, env.info.value, env, 0);
    }
  }

  /** The paths after one attempt to connect: the address is added unless it is there or the call is lost. */
  ghost predicate Dialed(before: seq<NvmePath>, after: seq<NvmePath>, a: Addr, env: CheckEnv) {
    after == if env.up == Lost || exists p | p in before :: p.addr == a then before
             else before + [NvmePath(a, env.role, "live")]
  }

  lemma DialDone(subs: Subs, c: ApiConn, env: CheckEnv)
    ensures Dialed(SubIn(subs, c.nqn).paths, SubIn(Dial(subs, c, env).0, c.nqn).paths, c.addr, env)
    ensures SubIn(Dial(subs, c, env).0, c.nqn).spaces == SubIn(subs, c.nqn).spaces
    ensures forall n | n != c.nqn :: SubIn(Dial(subs, c, env).0, n) == SubIn(subs, n)
  {
    var paths := SubIn(subs, c.nqn).paths;
    assert c.addr in Addrs(paths) <==> exists p | p in paths :: p.addr == c.addr by {
      if p :| p in paths && p.addr == c.addr {
        var i :| 0 <= i < |paths| && paths[i] == p;
        assert Addrs(paths)[i] == c.addr;
      }
      if c.addr in Addrs(paths) {
        var i :| 0 <= i < |paths| && Addrs(paths)[i] == c.addr;
        assert paths[i] in paths && paths[i].addr == c.addr;
      }
    }
  }

  /**
   * If the node that decides lists several connections, one command connects the second of them beside an
   * optimized path and the first beside any other, and nothing else changes.
   */
  lemma SeveralListed(subs: Subs, nqn: string, p: NvmePath, env: CheckEnv, k: nat)
    requires ',' !in p.addr.ip && env.client && env.info.Some? && FirstCalls(p, env.info.value, env, k)
    requires |env.visits[k].conns.value| > 1
    ensures var c := env.visits[k].conns.value[if p.ana == "optimized" then 1 else 0];
            var (after, cmds, ok) := CheckOnlineNode(subs, nqn, p, env);
            && cmds == [ConnectCmd(c.nqn, c.addr, 60)]
            && Dialed(SubIn(subs, c.nqn).paths, SubIn(after, c.nqn).paths, c.addr, env)
            && SubIn(after, c.nqn).spaces == SubIn(subs, c.nqn).spaces
            && forall n | n != c.nqn :: SubIn(after, n) == SubIn(subs, n)
  {
    var c := env.visits[k].conns.value[if p.ana == "optimized" then 1 else 0];
    FirstDecides(p, env.info.value, env, 0, k);
    JudgeCalls(p, env.info.value, env, k);
    DialDone(subs, c, env);
  }

  /**
   * If it lists a single connection, at another IP than the path's, the path is disconnected and, once that
   * reported success, the new address connected with fifteen times the patience.
   */
  lemma OneListed(subs: Subs, nqn: string, p: NvmePath, env: CheckEnv, k: nat)
    requires ',' !in p.addr.ip && env.client && env.info.Some? && FirstCalls(p, env.info.value, env, k)
    requires |env.visits[k].conns.value| == 1 && env.visits[k].conns.value[0].nqn == nqn
    ensures var c := env.visits[k].conns.value[0];
            var (after, cmds, ok) := CheckOnlineNode(subs, nqn, p, env);
            var paths := SubIn(subs, nqn).paths;
            var rest := if env.down == Lost then paths else Without(paths, p.addr);
            && cmds == [DisconnectCmd(nqn, p.addr)] + (if env.down == Ok then [ConnectCmd(nqn, c.addr, 900)] else [])
            && (if env.down == Ok then Dialed(rest, SubIn(after, nqn).paths, c.addr, env)
                else SubIn(after, nqn).paths == rest)
            && forall n | n != nqn :: SubIn(after, n) == SubIn(subs, n)
  {
    var c := env.visits[k].conns.value[0];
    FirstDecides(p, env.info.value, env, 0, k);
    JudgeCalls(p, env.info.value, env, k);
    DialDone(SetPaths(subs, nqn, DropPath(SubIn(subs, nqn).paths, p.addr, env.down)), c, env);
  }

  /** The API lists these two connections, the optimized one first. */
  datatype Pair = Pair(first: ApiConn, second: ApiConn)

  function Survivor(pair: Pair, ana: string): ApiConn {
    if ana == OPTIMIZED then pair.first else pair.second
  }

  function Missing(pair: Pair, ana: string): ApiConn {
    if ana == OPTIMIZED then pair.second else pair.first
  }

  ghost predicate ListsPair(env: CheckEnv, pair: Pair) {
    forall v | v in env.visits && v.conns.Some? :: [pair.first, pair.second] <= v.conns.value
  }

  /** With that list, the only address ever dialed is the one that the surviving path does not have. */
  lemma RepairDialsMissing(p: NvmePath, info: NodeInfo, env: CheckEnv, pair: Pair, j: nat)
    requires ListsPair(env, pair)
    ensures DecideFrom(p, info, env, j) in {Nothing, Add(Missing(pair, p.ana))}
  {
    DecisionSource(p, info, env, j);
    var d := DecideFrom(p, info, env, j);
    if d != Nothing {
      var k :| j <= k < |info.nodes| && Judge(p, info, k, VisitOf(env, k)) == d;
      assert VisitOf(env, k) in env.visits;
    }
  }

  /** Some node in the missing role is online and has its connections listed. */
  ghost predicate SomeNodeServes(p: NvmePath, info: NodeInfo, env: CheckEnv) {
    exists k | 0 <= k < |info.nodes| ::
      && MissingRole(p.ana, info, k)
      && VisitOf(env, k).online && VisitOf(env, k).conns.Some?
  }

  lemma {:induction false} DecidesEventually(p: NvmePath, info: NodeInfo, env: CheckEnv, j: nat, k: nat)
    requires j <= k < |info.nodes| && Judge(p, info, k, VisitOf(env, k)) != Nothing
    ensures DecideFrom(p, info, env, j) != Nothing
    decreases k - j
  {
    if j < k && Judge(p, info, j, VisitOf(env, j)) == Nothing {
      DecidesEventually(p, info, env, j + 1, k);
    }
  }

  lemma RepairAddsMissing(p: NvmePath, info: NodeInfo, env: CheckEnv, pair: Pair)
    requires ListsPair(env, pair) && SomeNodeServes(p, info, env)
    ensures DecideFrom(p, info, env, 0) == Add(Missing(pair, p.ana))
  {
    var k :| 0 <= k < |info.nodes|
          && MissingRole(p.ana, info, k)
          && VisitOf(env, k).online && VisitOf(env, k).conns.Some?;
    assert VisitOf(env, k) in env.visits;
    DecidesEventually(p, info, env, 0, k);
    RepairDialsMissing(p, info, env, pair, 0);
  }

  // ---------- confirmSubsystemStillSinglePath ----------

  function Infos(listing: Listing): seq<SubsystemInfo> {
    if listing == [] then [] else listing[0] + Infos(listing[1..])
  }

  predicate Shows(infos: seq<SubsystemInfo>, nqn: string) {
    exists info | info in infos :: info.nqn == nqn
  }

  predicate OnlySingle(infos: seq<SubsystemInfo>, nqn: string) {
    forall info | info in infos && info.nqn == nqn :: |info.paths| == 1
  }

  /** The recheck shows the subsystem, and with one path wherever it shows it. */
  predicate ShowsSingle(listing: Listing, nqn: string) {
    Shows(Infos(listing), nqn) && OnlySingle(Infos(listing), nqn)
  }

  /** A recheck that fails is passed over, so five failures confirm. */
  predicate Confirmed(answers: seq<Option<Listing>>, nqn: string) {
    forall k | 0 <= k < RECHECKS && k < |answers| && answers[k].Some? :: ShowsSingle(answers[k].value, nqn)
  }

  lemma {:induction false} InfosSplit(listing: Listing, h: nat)
    requires h < |listing|
    ensures Infos(listing[h..]) == listing[h] + Infos(listing[h + 1..])
  {
    assert listing[h..][1..] == listing[h + 1..];
  }

  method ConfirmSubsystemStillSinglePath(nqn: string, answers: seq<Option<Listing>>) returns (confirm: bool)
    requires |answers| == RECHECKS
    ensures confirm == Confirmed(answers, nqn)
  {
    for i := 0 to RECHECKS
      invariant forall k | 0 <= k < i && answers[k].Some? :: ShowsSingle(answers[k].value, nqn)
    {
      if answers[i].None? {
        continue;
      }
      var found, single := ScanListing(answers[i].value, nqn);
      if !single || !found {
        return false;
      }
    }
    return true;
  }

  /** The two inner loops of a recheck. */
  method ScanListing(listing: Listing, nqn: string) returns (found: bool, single: bool)
    ensures found && single <==> ShowsSingle(listing, nqn)
  {
    found, single := false, true;
    ghost var infos: seq<SubsystemInfo> := [];
    assert listing[0..] == listing;
    for h := 0 to |listing|
      invariant infos + Infos(listing[h..]) == Infos(listing)
      invariant single && (found <==> Shows(infos, nqn)) && OnlySingle(infos, nqn)
    {
      InfosSplit(listing, h);
      ghost var next := infos + listing[h];
      assert next + Infos(listing[h + 1..]) == Infos(listing);
      var foundHere, singleHere := ScanHost(listing[h], nqn);
      if !singleHere {
        ghost var info :| info in listing[h] && info.nqn == nqn && |info.paths| != 1;
        assert info in next && info in Infos(listing);
        return true, false;
      }
      found := found || foundHere;
      infos := next;
    }
    assert infos == Infos(listing);
  }

  method ScanHost(infos: seq<SubsystemInfo>, nqn: string) returns (found: bool, single: bool)
    ensures single <==> OnlySingle(infos, nqn)
    ensures single ==> (found <==> Shows(infos, nqn))
  {
    found, single := false, true;
    for s := 0 to |infos|
      invariant single && (found <==> Shows(infos[..s], nqn)) && OnlySingle(infos[..s], nqn)
    {
      assert infos[..s + 1] == infos[..s] + [infos[s]];
      if infos[s].nqn == nqn {
        found := true;
        if |infos[s].paths| != 1 {
          return true, false;
        }
      }
    }
    assert infos[..|infos|] == infos;
  }

  // ---------- One round of the monitor ----------

  datatype Device = Device(nqn: string, serial: string)
  datatype DeviceEnv = DeviceEnv(lists: bool, rechecks: seq<bool>, check: CheckEnv)

  /** Rechecks that answer, answer with the truth. */
  function Answers(nqn: string, sub: Subsystem, rechecks: seq<bool>): seq<Option<Listing>> {
    seq(RECHECKS, k requires 0 <= k < RECHECKS => if At(rechecks, k, true) then Some(ListDevice(nqn, sub)) else None)
  }

  predicate NeedsRepair(serial: string, p: NvmePath) {
    || (p.state == "connecting" && serial == "single")
    || ((p.ana == OPTIMIZED || p.ana == NON_OPTIMIZED) && serial == "ha")
  }

  predicate IsLvol(nqn: string) {
    GetLvolIDFromNQN(nqn).1 != ""
  }

  function RepairDevice(subs: Subs, d: Device, env: DeviceEnv): (Subs, seq<Cmd>) {
    var sub := SubIn(subs, d.nqn);
    if env.lists && IsLvol(d.nqn) && |sub.paths| == 1
       && Confirmed(Answers(d.nqn, sub, env.rechecks), d.nqn) && NeedsRepair(d.serial, sub.paths[0])
    then
      var (after, cmds, _) := CheckOnlineNode(subs, d.nqn, sub.paths[0], env.check);
      (after, cmds)
    else (subs, [])
  }

  /** reconnectSubsystems, over the devices that `nvme list` shows. */
  function Round(subs: Subs, devices: seq<Device>, envs: seq<DeviceEnv>): (Subs, seq<Cmd>)
    requires |envs| == |devices|
    decreases |devices|
  {
    if devices == [] then (subs, [])
    else
      var k := |devices| - 1;
      var (before, cmds) := Round(subs, devices[..k], envs[..k]);
      var (after, more) := RepairDevice(before, devices[k], envs[k]);
      (after, cmds + more)
  }

  lemma TruthConfirms(nqn: string, sub: Subsystem, rechecks: seq<bool>)
    requires |sub.paths| == 1
    ensures Confirmed(Answers(nqn, sub, rechecks), nqn)
  {
    var listing := ListDevice(nqn, sub);
    assert listing[1..] == [] && Infos(listing) == listing[0] + Infos(listing[1..]);
    assert Infos(listing) == [SubsystemInfo(nqn, sub.paths)];
    assert SubsystemInfo(nqn, sub.paths) in Infos(listing);
  }

  /**
   * A subsystem with any other number of paths is confirmed as well, but only when not one recheck answers.
   */
  lemma ConfirmedExactly(nqn: string, sub: Subsystem, rechecks: seq<bool>)
    ensures Confirmed(Answers(nqn, sub, rechecks), nqn)
       <==> |sub.paths| == 1 || forall k | 0 <= k < RECHECKS :: !At(rechecks, k, true)
  {
    var answers := Answers(nqn, sub, rechecks);
    if |sub.paths| == 1 {
      TruthConfirms(nqn, sub, rechecks);
    } else if k :| 0 <= k < RECHECKS && At(rechecks, k, true) {
      assert answers[k] == Some(ListDevice(nqn, sub)) && !ShowsSingle(ListDevice(nqn, sub), nqn);
    }
  }

  /** At least two paths, or one healthy path at the address that its role has in the list. */
  predicate Healthy(sub: Subsystem, pair: Pair) {
    || |sub.paths| >= 2
    || (|sub.paths| == 1
        && (sub.paths[0].ana == OPTIMIZED || sub.paths[0].ana == NON_OPTIMIZED)
        && sub.paths[0].addr == Survivor(pair, sub.paths[0].ana).addr)
  }

  /** This round can repair the device's subsystem. */
  ghost predicate CanRepair(sub: Subsystem, d: Device, env: DeviceEnv, pair: Pair) {
    && d.serial == "ha" && GetLvolIDFromNQN(d.nqn).1 != "" && env.lists
    && env.check.client && env.check.info.Some? && env.check.up != Lost
    && pair.first.nqn == d.nqn == pair.second.nqn && pair.first.addr != pair.second.addr
    && ListsPair(env.check, pair)
    && (|sub.paths| == 1 ==> SomeNodeServes(sub.paths[0], env.check.info.value, env.check))
  }

  /** A single path keeps its place and the missing address joins it; anything else stays as it is. */
  ghost predicate RepairedTo(before: Subsystem, after: Subsystem, pair: Pair) {
    if |before.paths| == 1 then
      && |after.paths| == 2 && after.paths[0] == before.paths[0]
      && {after.paths[0].addr, after.paths[1].addr} == {pair.first.addr, pair.second.addr}
    else after == before
  }

  lemma DeviceRepaired(subs: Subs, d: Device, env: DeviceEnv, pair: Pair)
    requires CanRepair(SubIn(subs, d.nqn), d, env, pair) && Healthy(SubIn(subs, d.nqn), pair)
    ensures var after := RepairDevice(subs, d, env).0;
            && (forall nqn | nqn != d.nqn :: SubIn(after, nqn) == SubIn(subs, nqn))
            && RepairedTo(SubIn(subs, d.nqn), SubIn(after, d.nqn), pair)
  {
    var sub := SubIn(subs, d.nqn);
    if |sub.paths| == 1 {
      var p := sub.paths[0];
      TruthConfirms(d.nqn, sub, env.rechecks);
      RepairAddsMissing(p, env.check.info.value, env.check, pair);
      assert sub.paths == [p] && Addrs(sub.paths) == [p.addr];
      var c := Missing(pair, p.ana);
      var added := NvmePath(c.addr, env.check.role, "live");
      assert TryOnce(sub.paths, added, env.check.up).0 == [p, added];
      assert SubIn(RepairDevice(subs, d, env).0, d.nqn).paths == [p, added];
    }
  }

  /**
   * A "single" volume whose only path is "connecting" and that the API lists at one other address moves
   * there: its path is disconnected, and the new address connected.
   */
  lemma SingleMoves(subs: Subs, d: Device, env: DeviceEnv, k: nat)
    requires d.serial == "single" && GetLvolIDFromNQN(d.nqn).1 != "" && env.lists
    requires |SubIn(subs, d.nqn).paths| == 1
    requires var p := SubIn(subs, d.nqn).paths[0];
             && p.state == "connecting" && ',' !in p.addr.ip
             && env.check.client && env.check.info.Some? && FirstCalls(p, env.check.info.value, env.check, k)
    requires |env.check.visits[k].conns.value| == 1 && env.check.visits[k].conns.value[0].nqn == d.nqn
    requires env.check.down == Ok && env.check.up != Lost
    ensures var (after, cmds) := RepairDevice(subs, d, env);
            var gone := SubIn(subs, d.nqn).paths[0];
            var a := env.check.visits[k].conns.value[0].addr;
            && cmds == [DisconnectCmd(d.nqn, gone.addr), ConnectCmd(d.nqn, a, 900)]
            && SubIn(after, d.nqn).paths == [NvmePath(a, env.check.role, "live")]
            && forall n | n != d.nqn :: SubIn(after, n) == SubIn(subs, n)
  {
    var sub := SubIn(subs, d.nqn);
    var p := sub.paths[0];
    TruthConfirms(d.nqn, sub, env.rechecks);
    OneListed(subs, d.nqn, p, env.check, k);
    assert sub.paths == [p] && Without(sub.paths, p.addr) == [];
  }

  // ---------- Rounds over all devices ----------

  /** The monitor passes this device over: no logical volume, not one path, or a path it does not repair. */
  predicate Idle(sub: Subsystem, d: Device) {
    || GetLvolIDFromNQN(d.nqn).1 == "" || |sub.paths| != 1
    || (&& (d.serial == "single" ==> sub.paths[0].state != "connecting")
        && (d.serial == "ha" ==> sub.paths[0].ana != "optimized" && sub.paths[0].ana != "non-optimized"))
  }

  /** This time the device cannot be listed, or the API or every node of the volume keeps silent. */
  ghost predicate Skipped(env: DeviceEnv) {
    || !env.lists || !env.check.client || env.check.info.None?
    || (forall v | v in env.check.visits :: !v.online || v.conns.None?)
  }

  ghost predicate Works(sub: Subsystem, d: Device, env: DeviceEnv, pairs: map<string, Pair>) {
    d.nqn in pairs && CanRepair(sub, d, env, pairs[d.nqn]) && Healthy(sub, pairs[d.nqn])
  }

  /** Every device of this subsystem is idle, repairable, or skipped. */
  ghost predicate Fits(subs: Subs, devices: seq<Device>, envs: seq<DeviceEnv>, pairs: map<string, Pair>, nqn: string)
    requires |envs| == |devices|
  {
    forall i | 0 <= i < |devices| && devices[i].nqn == nqn ::
      Idle(SubIn(subs, nqn), devices[i]) || Works(SubIn(subs, nqn), devices[i], envs[i], pairs) || Skipped(envs[i])
  }

  /** Some device of this subsystem is repairable. */
  ghost predicate Mends(subs: Subs, devices: seq<Device>, envs: seq<DeviceEnv>, pairs: map<string, Pair>, nqn: string)
    requires |envs| == |devices|
  {
    exists i | 0 <= i < |devices| ::
      devices[i].nqn == nqn && Works(SubIn(subs, nqn), devices[i], envs[i], pairs)
  }

  /** Whatever the API lists for this device's volume belongs to the device's own subsystem. */
  ghost predicate OwnList(d: Device, env: DeviceEnv) {
    forall v | v in env.check.visits && v.conns.Some? :: forall c | c in v.conns.value :: c.nqn == d.nqn
  }

  /** Devices of subsystems that do not fit may do anything to their own subsystem. */
  ghost predicate Apart(subs: Subs, devices: seq<Device>, envs: seq<DeviceEnv>, pairs: map<string, Pair>)
    requires |envs| == |devices|
  {
    forall i | 0 <= i < |devices| :: OwnList(devices[i], envs[i]) || Fits(subs, devices, envs, pairs, devices[i].nqn)
  }

  ghost predicate EndsAs(
    subs: Subs, after: Subs, devices: seq<Device>, envs: seq<DeviceEnv>, pairs: map<string, Pair>, nqn: string)
    requires |envs| == |devices|
  {
    if Mends(subs, devices, envs, pairs, nqn)
    then nqn in pairs && RepairedTo(SubIn(subs, nqn), SubIn(after, nqn), pairs[nqn])
    else SubIn(after, nqn) == SubIn(subs, nqn)
  }

  lemma SkippedKeeps(subs: Subs, d: Device, env: DeviceEnv)
    requires Skipped(env)
    ensures RepairDevice(subs, d, env) == (subs, [])
  {
    var sub := SubIn(subs, d.nqn);
    if env.lists && |sub.paths| == 1 && env.check.client && env.check.info.Some? {
      DecisionSource(sub.paths[0], env.check.info.value, env.check, 0);
      forall k | 0 <= k < |env.check.info.value.nodes|
        ensures Judge(sub.paths[0], env.check.info.value, k, VisitOf(env.check, k)) == Nothing
      {
        assert VisitOf(env.check, k) in env.check.visits || VisitOf(env.check, k) == VisitEnv(false, None);
      }
    }
  }

  lemma OwnListKeeps(subs: Subs, d: Device, env: DeviceEnv)
    requires OwnList(d, env)
    ensures forall nqn | nqn != d.nqn :: SubIn(RepairDevice(subs, d, env).0, nqn) == SubIn(subs, nqn)
    ensures forall c | c in RepairDevice(subs, d, env).1 :: c.nqn == d.nqn
  {
    var sub := SubIn(subs, d.nqn);
    if |sub.paths| == 1 && env.check.info.Some? {
      var p, info := sub.paths[0], env.check.info.value;
      DecisionSource(p, info, env.check, 0);
      var decision := DecideFrom(p, info, env.check, 0);
      if decision != Nothing {
        var k :| 0 <= k < |info.nodes| && Judge(p, info, k, VisitOf(env.check, k)) == decision;
        assert VisitOf(env.check, k) in env.check.visits;
        assert decision.conn in VisitOf(env.check, k).conns.value;
      }
    }
  }

  /** One device of a fitting subsystem, which earlier devices of the round may have repaired already. */
  lemma DeviceStep(subs: Subs, sub: Subsystem, d: Device, env: DeviceEnv, pairs: map<string, Pair>)
    requires Idle(sub, d) || Works(sub, d, env, pairs) || Skipped(env)
    requires SubIn(subs, d.nqn) == sub || (d.nqn in pairs && RepairedTo(sub, SubIn(subs, d.nqn), pairs[d.nqn]))
    ensures var after := RepairDevice(subs, d, env).0;
            && (forall nqn | nqn != d.nqn :: SubIn(after, nqn) == SubIn(subs, nqn))
            && if Works(sub, d, env, pairs) then RepairedTo(sub, SubIn(after, d.nqn), pairs[d.nqn])
               else SubIn(after, d.nqn) == SubIn(subs, d.nqn)
  {
    if Works(sub, d, env, pairs) {
      DeviceRepaired(subs, d, env, pairs[d.nqn]);
    } else if Skipped(env) {
      SkippedKeeps(subs, d, env);
    }
  }

  /**
   * One round takes a single-path subsystem with a repairable device to both addresses, and leaves one
   * without such a device as it was, whatever the rest of the host's devices are.
   */
  lemma {:induction false} RoundRepairs(
    subs: Subs, devices: seq<Device>, envs: seq<DeviceEnv>, pairs: map<string, Pair>, nqn: string)
    requires |envs| == |devices| && Apart(subs, devices, envs, pairs) && Fits(subs, devices, envs, pairs, nqn)
    ensures EndsAs(subs, Round(subs, devices, envs).0, devices, envs, pairs, nqn)
    decreases |devices|
  {
    if devices != [] {
      var k := |devices| - 1;
      var d := devices[k];
      var before := Round(subs, devices[..k], envs[..k]).0;
      PrefixApart(subs, devices, envs, pairs, k);
      PrefixFits(subs, devices, envs, pairs, k, nqn);
      RoundRepairs(subs, devices[..k], envs[..k], pairs, nqn);
      if Fits(subs, devices, envs, pairs, d.nqn) {
        PrefixFits(subs, devices, envs, pairs, k, d.nqn);
        RoundRepairs(subs, devices[..k], envs[..k], pairs, d.nqn);
        DeviceStep(before, SubIn(subs, d.nqn), d, envs[k], pairs);
      } else {
        OwnListKeeps(before, d, envs[k]);
      }
      MendsSnoc(subs, devices, envs, pairs, nqn);
    }
  }

  lemma PrefixFits(
    subs: Subs, devices: seq<Device>, envs: seq<DeviceEnv>, pairs: map<string, Pair>, k: nat, nqn: string)
    requires |envs| == |devices| && k <= |devices| && Fits(subs, devices, envs, pairs, nqn)
    ensures Fits(subs, devices[..k], envs[..k], pairs, nqn)
  {}

  lemma PrefixApart(subs: Subs, devices: seq<Device>, envs: seq<DeviceEnv>, pairs: map<string, Pair>, k: nat)
    requires |envs| == |devices| && k <= |devices| && Apart(subs, devices, envs, pairs)
    ensures Apart(subs, devices[..k], envs[..k], pairs)
  {
    forall i | 0 <= i < k && !OwnList(devices[i], envs[i])
      ensures Fits(subs, devices[..k], envs[..k], pairs, devices[i].nqn)
    {
      PrefixFits(subs, devices, envs, pairs, k, devices[i].nqn);
    }
  }

  lemma MendsSnoc(subs: Subs, devices: seq<Device>, envs: seq<DeviceEnv>, pairs: map<string, Pair>, nqn: string)
    requires |envs| == |devices| && devices != []
    ensures var k := |devices| - 1;
            Mends(subs, devices, envs, pairs, nqn)
            <==> || Mends(subs, devices[..k], envs[..k], pairs, nqn)
                 || (devices[k].nqn == nqn && Works(SubIn(subs, nqn), devices[k], envs[k], pairs))
  {
    var k := |devices| - 1;
    if Mends(subs, devices[..k], envs[..k], pairs, nqn) {
      var i :| 0 <= i < k && devices[..k][i].nqn == nqn
            && Works(SubIn(subs, nqn), devices[..k][i], envs[..k][i], pairs);
      assert devices[i] == devices[..k][i] && envs[i] == envs[..k][i];
    }
    if Mends(subs, devices, envs, pairs, nqn) {
      var i :| 0 <= i < |devices| && devices[i].nqn == nqn && Works(SubIn(subs, nqn), devices[i], envs[i], pairs);
      assert i < k ==> devices[..k][i] == devices[i] && envs[..k][i] == envs[i];
    }
  }

  // ---------- The commands of a round ----------

  /** The commands that name this subsystem, in order. */
  function Naming(cmds: seq<Cmd>, nqn: string): seq<Cmd> {
    if cmds == [] then [] else (if cmds[0].nqn == nqn then [cmds[0]] else []) + Naming(cmds[1..], nqn)
  }

  lemma {:induction false} NamingAppend(a: seq<Cmd>, b: seq<Cmd>, nqn: string)
    ensures Naming(a + b, nqn) == Naming(a, nqn) + Naming(b, nqn)
  {
    if a == [] {
      assert a + b == b;
    } else {
      NamingAppend(a[1..], b, nqn);
      var head := if a[0].nqn == nqn then [a[0]] else [];
      assert (a + b)[0] == a[0] && (a + b)[1..] == a[1..] + b;
      assert Naming(a + b, nqn) == head + Naming(a[1..] + b, nqn);
      assert head + (Naming(a[1..], nqn) + Naming(b, nqn)) == (head + Naming(a[1..], nqn)) + Naming(b, nqn);
    }
  }

  lemma {:induction false} NamingOthers(cmds: seq<Cmd>, nqn: string)
    requires forall c | c in cmds :: c.nqn != nqn
    ensures Naming(cmds, nqn) == []
  {
    if cmds != [] {
      NamingOthers(cmds[1..], nqn);
    }
  }

  /** What connects the missing address of a subsystem with these paths. */
  function Repairing(nqn: string, paths: seq<NvmePath>, pair: Pair): seq<Cmd> {
    if |paths| == 1 then [ConnectCmd(nqn, (if paths[0].ana == "optimized" then pair.second else pair.first).addr, 60)]
    else []
  }

  lemma DeviceCommands(subs: Subs, sub: Subsystem, d: Device, env: DeviceEnv, pairs: map<string, Pair>)
    requires Idle(sub, d) || Works(sub, d, env, pairs) || Skipped(env)
    requires SubIn(subs, d.nqn) == sub || (d.nqn in pairs && RepairedTo(sub, SubIn(subs, d.nqn), pairs[d.nqn]))
    ensures RepairDevice(subs, d, env).1
         == if Works(sub, d, env, pairs) then Repairing(d.nqn, SubIn(subs, d.nqn).paths, pairs[d.nqn]) else []
  {
    var paths := SubIn(subs, d.nqn).paths;
    if Works(sub, d, env, pairs) && |paths| == 1 {
      TruthConfirms(d.nqn, SubIn(subs, d.nqn), env.rechecks);
      RepairAddsMissing(paths[0], env.check.info.value, env.check, pairs[d.nqn]);
    } else if !Works(sub, d, env, pairs) && Skipped(env) {
      SkippedKeeps(subs, d, env);
    }
  }

  /**
   * In a round a single-path subsystem with a repairable device gets exactly one command, which connects the
   * missing address; any other one that fits gets none.
   */
  lemma {:induction false} RoundCommands(
    subs: Subs, devices: seq<Device>, envs: seq<DeviceEnv>, pairs: map<string, Pair>, nqn: string)
    requires |envs| == |devices| && Apart(subs, devices, envs, pairs) && Fits(subs, devices, envs, pairs, nqn)
    ensures Mends(subs, devices, envs, pairs, nqn) ==> nqn in pairs
    ensures Naming(Round(subs, devices, envs).1, nqn)
         == if Mends(subs, devices, envs, pairs, nqn) then Repairing(nqn, SubIn(subs, nqn).paths, pairs[nqn]) else []
    decreases |devices|
  {
    if devices != [] {
      var k := |devices| - 1;
      var d := devices[k];
      var (before, cmds) := Round(subs, devices[..k], envs[..k]);
      var more := RepairDevice(before, d, envs[k]).1;
      PrefixApart(subs, devices, envs, pairs, k);
      PrefixFits(subs, devices, envs, pairs, k, nqn);
      RoundCommands(subs, devices[..k], envs[..k], pairs, nqn);
      NamingAppend(cmds, more, nqn);
      MendsSnoc(subs, devices, envs, pairs, nqn);
      if d.nqn == nqn {
        RoundRepairs(subs, devices[..k], envs[..k], pairs, nqn);
        DeviceCommands(before, SubIn(subs, nqn), d, envs[k], pairs);
      } else {
        DeviceNames(subs, devices, envs, pairs);
        NamingOthers(more, nqn);
      }
    }
  }

  /** The last device of a round only has commands issued that name its own subsystem. */
  lemma DeviceNames(subs: Subs, devices: seq<Device>, envs: seq<DeviceEnv>, pairs: map<string, Pair>)
    requires |envs| == |devices| && devices != [] && Apart(subs, devices, envs, pairs)
    ensures var k := |devices| - 1;
            var before := Round(subs, devices[..k], envs[..k]).0;
            forall c | c in RepairDevice(before, devices[k], envs[k]).1 :: c.nqn == devices[k].nqn
  {
    var k := |devices| - 1;
    var d := devices[k];
    var before := Round(subs, devices[..k], envs[..k]).0;
    if OwnList(d, envs[k]) {
      OwnListKeeps(before, d, envs[k]);
    } else {
      PrefixApart(subs, devices, envs, pairs, k);
      PrefixFits(subs, devices, envs, pairs, k, d.nqn);
      RoundRepairs(subs, devices[..k], envs[..k], pairs, d.nqn);
      DeviceCommands(before, SubIn(subs, d.nqn), d, envs[k], pairs);
    }
  }

  /** A subsystem all of whose devices are idle gets no command in a round, whatever happens to the others. */
  lemma {:induction false} RoundLeavesIdle(subs: Subs, devices: seq<Device>, envs: seq<DeviceEnv>, nqn: string)
    requires |envs| == |devices|
    requires forall i | 0 <= i < |devices| ::
               if devices[i].nqn == nqn then Idle(SubIn(subs, nqn), devices[i]) else OwnList(devices[i], envs[i])
    ensures SubIn(Round(subs, devices, envs).0, nqn) == SubIn(subs, nqn)
    ensures forall c | c in Round(subs, devices, envs).1 :: c.nqn != nqn
    decreases |devices|
  {
    if devices != [] {
      var k := |devices| - 1;
      assert forall i | 0 <= i < k :: devices[..k][i] == devices[i] && envs[..k][i] == envs[i];
      RoundLeavesIdle(subs, devices[..k], envs[..k], nqn);
      if devices[k].nqn != nqn {
        OwnListKeeps(Round(subs, devices[..k], envs[..k]).0, devices[k], envs[k]);
      }
    }
  }

  /** A round over idle devices issues no command at all. */
  lemma {:induction false} RoundQuiet(subs: Subs, devices: seq<Device>, envs: seq<DeviceEnv>)
    requires |envs| == |devices|
    requires forall i | 0 <= i < |devices| :: Idle(SubIn(subs, devices[i].nqn), devices[i])
    ensures Round(subs, devices, envs) == (subs, [])
    decreases |devices|
  {
    if devices != [] {
      var k := |devices| - 1;
      assert forall i | 0 <= i < k :: devices[..k][i] == devices[i];
      RoundQuiet(subs, devices[..k], envs[..k]);
      var none: seq<Cmd> := [];
      assert RepairDevice(subs, devices[k], envs[k]) == (subs, none) && none + none == none;
    }
  }

  /** Each device is idle, repairable, or skipped, and its subsystem has a repairable one if it needs it. */
  ghost predicate AllFit(subs: Subs, devices: seq<Device>, envs: seq<DeviceEnv>, pairs: map<string, Pair>)
    requires |envs| == |devices|
  {
    forall i | 0 <= i < |devices| ::
      && Fits(subs, devices, envs, pairs, devices[i].nqn)
      && (Idle(SubIn(subs, devices[i].nqn), devices[i]) || Mends(subs, devices, envs, pairs, devices[i].nqn))
  }

  /**
   * Repair converges in one round: every subsystem with a repairable device ends repaired, every other one
   * is unchanged, and whatever happens in the next round, it has nothing to do.
   */
  lemma RepairConverges(
    subs: Subs, devices: seq<Device>, envs: seq<DeviceEnv>, pairs: map<string, Pair>, later: seq<DeviceEnv>)
    requires |envs| == |devices| == |later| && AllFit(subs, devices, envs, pairs)
    ensures var after := Round(subs, devices, envs).0;
            && (forall nqn :: EndsAs(subs, after, devices, envs, pairs, nqn))
            && Round(after, devices, later) == (after, [])
  {
    var after := Round(subs, devices, envs).0;
    forall nqn ensures EndsAs(subs, after, devices, envs, pairs, nqn) {
      RoundRepairs(subs, devices, envs, pairs, nqn);
    }
    forall i | 0 <= i < |devices| ensures Idle(SubIn(after, devices[i].nqn), devices[i]) {
      assert EndsAs(subs, after, devices, envs, pairs, devices[i].nqn);
    }
    RoundQuiet(after, devices, later);
  }
}
