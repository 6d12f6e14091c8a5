/** The monitor's loops over the host, proved against the functions that describe one round. */
module Monitor {
  import opened Strings
  import opened Identifiers
  import opened PathSort
  import opened Nvme
  import opened NvmeHosts
  import opened Repair

  /** connectViaNVMe: one attempt. */
  method ConnectViaNVMe(host: NvmeHost, c: ApiConn, env: CheckEnv) returns (ok: bool)
    requires host.Valid()
    modifies host
    ensures host.Valid() && (host.subs, ok) == Dial(old(host.subs), c, env)
  {
    ok := host.ExecConnect(c.nqn, NvmePath(c.addr, env.role, "live"), env.up);
  }

  method CheckOnlineNode(host: NvmeHost, nqn: string, p: NvmePath, env: CheckEnv)
    returns (ok: bool, issued: seq<Cmd>)
    requires host.Valid()
    modifies host
    ensures host.Valid() && (host.subs, issued, ok) == Repair.CheckOnlineNode(old(host.subs), nqn, p, env)
  {
    issued := [];
    if !env.client || env.info.None? {
      return false, [];
    }
    var info := env.info.value;
    var j := 0;
    while j < |info.nodes|
      invariant 0 <= j <= |info.nodes| && issued == []
      invariant host.subs == old(host.subs) && host.Valid()
      invariant DecideFrom(p, info, env, j) == DecideFrom(p, info, env, 0)
    {
      var visit := VisitOf(env, j);
      var skip := |info.nodeID| > 1 && !ShouldConnectToNode(p.ana, info.nodeID, info.nodes[j]);
      if !skip && visit.online && visit.conns.Some? && visit.conns.value != [] {
        var conns := visit.conns.value;
        var connIndex := if p.ana == OPTIMIZED && |conns| > 1 then 1 else 0;
        var conn := conns[connIndex];
        var targetIP := ParseAddress(AddressLine(p.addr.ip, p.addr.port));
        if |conns| == 1 && conn.addr.ip != targetIP {
          issued := [DisconnectCmd(nqn, p.addr)];
          host.ExecDisconnect(nqn, p.addr, env.down);
          if env.down != Ok {
            return false, issued;
          }
          ok := ConnectViaNVMe(host, conn, env);
          issued := issued + [ConnectCmd(conn.nqn, conn.addr, 900)];
          assert issued == [DisconnectCmd(nqn, p.addr), ConnectCmd(conn.nqn, conn.addr, 900)];
          return ok, issued;
        }
        if |conns| > 1 {
          ok := ConnectViaNVMe(host, conn, env);
          return ok, [ConnectCmd(conn.nqn, conn.addr, 60)];
        }
      }
      j := j + 1;
    }
    return true, [];
  }

  /** reconnectSubsystems; a device whose listing fails is passed over. */
  method ReconnectSubsystems(host: NvmeHost, devices: seq<Device>, envs: seq<DeviceEnv>) returns (issued: seq<Cmd>)
    requires host.Valid() && |envs| == |devices|
    modifies host
    ensures host.Valid() && (host.subs, issued) == Round(old(host.subs), devices, envs)
  {
    issued := [];
    for i := 0 to |devices|
      invariant host.Valid() && (host.subs, issued) == Round(old(host.subs), devices[..i], envs[..i])
    {
      assert devices[..i + 1][..i] == devices[..i] && envs[..i + 1][..i] == envs[..i];
      var more := ReconnectDevice(host, devices[i], envs[i]);
      issued := issued + more;
    }
    assert devices[..|devices|] == devices && envs[..|envs|] == envs;
  }

  /** The body of the outer loop, for the one subsystem that a device's listing shows. */
  method ReconnectDevice(host: NvmeHost, d: Device, env: DeviceEnv) returns (issued: seq<Cmd>)
    requires host.Valid()
    modifies host
    ensures host.Valid() && (host.subs, issued) == RepairDevice(old(host.subs), d, env)
  {
    issued := [];
    if !env.lists {
      return;
    }
    var listing: Listing := ListDevice(d.nqn, host.Sub(d.nqn));
    for h := 0 to |listing|
      invariant host.Valid()
      invariant h == 0 ==> host.subs == old(host.subs) && issued == []
      invariant h == 1 ==> (host.subs, issued) == RepairDevice(old(host.subs), d, env)
    {
      for s := 0 to |listing[h]|
        invariant host.Valid()
        invariant s == 0 ==> host.subs == old(host.subs) && issued == []
        invariant s == 1 ==> (host.subs, issued) == RepairDevice(old(host.subs), d, env)
      {
        var info: SubsystemInfo := listing[h][s];
        var (_, lvolID) := GetLvolIDFromNQN(info.nqn);
        if lvolID == "" {
          continue;
        }
        if |info.paths| == 1 {
          var answers := Answers(d.nqn, host.Sub(d.nqn), env.rechecks);
          var confirm := ConfirmSubsystemStillSinglePath(info.nqn, answers);
          if !confirm {
            continue;
          }
          if NeedsRepair(d.serial, info.paths[0]) {
            var _, cmds := CheckOnlineNode(host, d.nqn, info.paths[0], env.check);
            assert issued + cmds == cmds;
            issued := issued + cmds;
          }
        }
      }
    }
  }
}
