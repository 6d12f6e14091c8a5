/** The NVMe side of a node, changed step by step by the initiator's commands. */
module NvmeHosts {
  import opened Strings
  import opened Contexts
  import opened PathSort
  import opened Nvme
  import opened Tables

  /** What `nvme list-subsys` prints for one subsystem. */
  datatype SubsystemInfo = SubsystemInfo(nqn: string, paths: seq<NvmePath>)

  type Listing = seq<seq<SubsystemInfo>>

  /** The listing for a device of the subsystem: one host entry with that subsystem. */
  function ListDevice(nqn: string, sub: Subsystem): Listing {
    [[SubsystemInfo(nqn, sub.paths)]]
  }

  function PathsOf(infos: seq<SubsystemInfo>): seq<NvmePath> {
    if infos == [] then [] else infos[0].paths + PathsOf(infos[1..])
  }

  function AllPaths(listing: Listing): seq<NvmePath> {
    if listing == [] then [] else PathsOf(listing[0]) + AllPaths(listing[1..])
  }

  lemma OneDeviceListed(nqn: string, sub: Subsystem)
    ensures AllPaths(ListDevice(nqn, sub)) == sub.paths
  {
    var infos := ListDevice(nqn, sub)[0];
    assert ListDevice(nqn, sub)[1..] == [] && AllPaths([]) == [];
    assert infos[1..] == [] && infos[0].paths == sub.paths && PathsOf(infos[1..]) == [];
    assert PathsOf(infos) == sub.paths + [];
  }

  method CollectPaths(listing: Listing) returns (paths: seq<NvmePath>)
    ensures paths == AllPaths(listing)
  {
    paths := [];
    for h := 0 to |listing|
      invariant paths + AllPaths(listing[h..]) == AllPaths(listing)
    {
      var host := listing[h];
      ghost var before := paths;
      for s := 0 to |host|
        invariant paths + PathsOf(host[s..]) == before + PathsOf(host)
      {
        assert host[s..][0] == host[s];
        assert host[s..][1..] == host[s + 1..];
        var found := host[s].paths;
        ghost var base := paths;
        for p := 0 to |found|
          invariant paths == base + found[..p]
        {
          paths := paths + [found[p]];
        }
        assert found[..|found|] == found;
      }
      assert host[|host|..] == [] && paths == before + PathsOf(host);
      assert listing[h..][0] == host && listing[h..][1..] == listing[h + 1..];
      assert paths + AllPaths(listing[h + 1..]) == before + (PathsOf(host) + AllPaths(listing[h + 1..]));
    }
    assert listing[|listing|..] == [];
  }

  class NvmeHost {
    var subs: map<string, Subsystem>

    ghost predicate Valid()
      reads this
    {
      Lean(subs, NO_SUBSYSTEM)
    }

    function Sub(nqn: string): Subsystem
      reads this
    {
      Get(subs, nqn, NO_SUBSYSTEM)
    }

    constructor ()
      ensures Valid() && subs == map[]
    {
      subs := map[];
    }

    /** Every change below goes through here, so it touches one subsystem. */
    method SetPaths(nqn: string, paths: seq<NvmePath>)
      requires Valid()
      modifies this
      ensures Valid() && subs == Put(old(subs), nqn, NO_SUBSYSTEM, old(Sub(nqn)).(paths := paths))
    {
      PutLean(subs, nqn, NO_SUBSYSTEM, Sub(nqn).(paths := paths));
      subs := Put(subs, nqn, NO_SUBSYSTEM, Sub(nqn).(paths := paths));
    }

    method ExecConnect(nqn: string, p: NvmePath, o: Outcome) returns (ok: bool)
      requires Valid()
      modifies this
      ensures var (paths, done) := TryOnce(old(Sub(nqn)).paths, p, o);
              Valid() && ok == done && subs == Put(old(subs), nqn, NO_SUBSYSTEM, old(Sub(nqn)).(paths := paths))
    {
      var sub := Sub(nqn);
      if o != Lost && p.addr !in Addrs(sub.paths) {
        SetPaths(nqn, sub.paths + [p]);
        ok := o == Ok;
      } else {
        PutGet(subs, nqn, NO_SUBSYSTEM);
        assert sub.(paths := sub.paths) == sub;
        ok := false;
      }
    }

    method ExecConnectWithRetry(nqn: string, p: NvmePath, outs: seq<Outcome>, retries: nat) returns (ok: bool)
      requires Valid()
      modifies this
      ensures var (paths, done) := TryFrom(old(Sub(nqn)).paths, p, outs, 0, retries);
              Valid() && ok == done && subs == Put(old(subs), nqn, NO_SUBSYSTEM, old(Sub(nqn)).(paths := paths))
    {
      ghost var sub, subs0 := Sub(nqn), subs;
      var retry := retries;
      PutGet(subs, nqn, NO_SUBSYSTEM);
      assert sub.(paths := sub.paths) == sub;
      while retry > 0
        invariant Valid() && 0 <= retry <= retries && Lean(subs0, NO_SUBSYSTEM)
        invariant subs == Put(subs0, nqn, NO_SUBSYSTEM, sub.(paths := Sub(nqn).paths))
        invariant TryFrom(Sub(nqn).paths, p, outs, retries - retry, retries) == TryFrom(sub.paths, p, outs, 0, retries)
      {
        ghost var now := Sub(nqn);
        var done := ExecConnect(nqn, p, At(outs, retries - retry, Ok));
        PutPut(subs0, nqn, NO_SUBSYSTEM, now, sub.(paths := Sub(nqn).paths));
        if done {
          return true;
        }
        retry := retry - 1;
      }
      return false;
    }

    /** `nvme disconnect`, whose failure the callers only log. */
    method ExecDisconnect(nqn: string, a: Addr, o: Outcome)
      requires Valid()
      modifies this
      ensures Valid()
      ensures subs == Put(old(subs), nqn, NO_SUBSYSTEM,
                          old(Sub(nqn)).(paths := DropPath(old(Sub(nqn)).paths, a, o)))
    {
      SetPaths(nqn, DropPath(Sub(nqn).paths, a, o));
    }

    method WaitForDeviceReady(nqn: string, nsId: string, seconds: nat, lag: nat) returns (found: Option<string>)
      ensures found == if lag <= seconds then FirstMatch(nsId, Visible(Sub(nqn))) else None
    {
      for i := 0 to seconds + 1
        invariant i > lag ==> FirstMatch(nsId, Visible(Sub(nqn))).None?
      {
        var matched := if i >= lag then FirstMatch(nsId, Visible(Sub(nqn))) else None;
        if matched.Some? {
          return matched;
        }
      }
      return None;
    }

    method WaitForDeviceGone(nqn: string, listed: bool, lag: nat) returns (gone: bool)
      ensures gone == Gone(Sub(nqn), listed, lag)
    {
      for i := 0 to POLLS + 1
        invariant i > 0 && Visible(Sub(nqn)) == [] ==> listed && i <= lag
      {
        if Visible(Sub(nqn)) == [] && (!listed || i >= lag) {
          return true;
        }
      }
      return false;
    }

    /** The device's paths as listed, sorted in place. */
    method TeardownList(nqn: string, swaps: seq<(nat, nat)>) returns (sorted: seq<NvmePath>)
      ensures sorted == SortSlice(Sub(nqn).paths, swaps)
    {
      var listing := ListDevice(nqn, Sub(nqn));
      var paths := CollectPaths(listing);
      OneDeviceListed(nqn, Sub(nqn));
      var order := new NvmePath[|paths|](i requires 0 <= i < |paths| => paths[i]);
      assert order[..] == paths;
      SortPaths(order, swaps);
      return order[..];
    }

    /** One command per path of `order`, in order; also returns the paths that were attempted. */
    method DropAll(nqn: string, order: seq<NvmePath>, cmds: seq<Outcome>) returns (attempted: seq<NvmePath>)
      requires Valid()
      modifies this
      ensures Valid() && attempted == order
      ensures subs == Put(old(subs), nqn, NO_SUBSYSTEM,
                          old(Sub(nqn)).(paths := DropFrom(old(Sub(nqn)).paths, order, cmds, 0)))
    {
      ghost var sub, subs0 := Sub(nqn), subs;
      PutGet(subs, nqn, NO_SUBSYSTEM);
      assert sub.(paths := sub.paths) == sub;
      attempted := [];
      for k := 0 to |order|
        invariant Valid() && attempted == order[..k]
        invariant subs == Put(subs0, nqn, NO_SUBSYSTEM, sub.(paths := Sub(nqn).paths))
        invariant DropFrom(Sub(nqn).paths, order, cmds, k) == DropFrom(sub.paths, order, cmds, 0)
      {
        ghost var now := Sub(nqn);
        ExecDisconnect(nqn, order[k].addr, At(cmds, k, Ok));
        PutPut(subs0, nqn, NO_SUBSYSTEM, now, sub.(paths := Sub(nqn).paths));
        attempted := attempted + [order[k]];
      }
    }

    /** Also returns the paths for which a command was issued, in order. */
    method DisconnectDevicePath(nqn: string, env: TeardownEnv) returns (ok: bool, attempted: seq<NvmePath>)
      requires Valid()
      modifies this
      ensures var (after, done) := Nvme.DisconnectDevicePath(old(Sub(nqn)), env);
              Valid() && ok == done && subs == Put(old(subs), nqn, NO_SUBSYSTEM, after)
      ensures attempted == if ok then SortSlice(old(Sub(nqn)).paths, env.swaps) else []
    {
      if !env.resolves || !env.lists {
        PutGet(subs, nqn, NO_SUBSYSTEM);
        return false, [];
      }
      var order := TeardownList(nqn, env.swaps);
      attempted := DropAll(nqn, order, env.cmds);
      ok := true;
    }

    method Connect(init: Initiator, env: ConnectEnv) returns (device: Option<string>)
      requires Valid()
      modifies this
      ensures var nqn := Word(init.nqn);
              var (after, found) := Nvme.Connect(init, old(Sub(nqn)), env);
              Valid() && device == found && subs == Put(old(subs), nqn, NO_SUBSYSTEM, after)
    {
      var nqn := Word(init.nqn);
      PutGet(subs, nqn, NO_SUBSYSTEM);
      ghost var sub, subs0 := Sub(nqn), subs;
      assert sub.(paths := sub.paths) == sub;
      if !env.lists {
        return None;
      }
      var alreadyConnected := Sub(nqn).paths != [];
      if !alreadyConnected {
        if env.fetched.None? {
          return None;
        }
        var ips := env.fetched.value;
        var n := |init.connections|;
        var i := 0;
        while i < n
          invariant 0 <= i <= n && Valid() && Lean(subs0, NO_SUBSYSTEM)
          invariant subs == Put(subs0, nqn, NO_SUBSYSTEM, sub.(paths := Sub(nqn).paths))
          invariant ConnectFrom(init, env, ips, Sub(nqn).paths, i) == ConnectFrom(init, env, ips, sub.paths, 0)
        {
          ghost var now := Sub(nqn);
          if i >= |ips| {
            return None;   // the index expression panics
          }
          var ok := ExecConnectWithRetry(nqn, NewPath(init, ips, env.roles, i), At(env.tries, i, []), n);
          PutPut(subs0, nqn, NO_SUBSYSTEM, now, Sub(nqn));
          if !ok {
            if i == 1 {
              ghost var up := Sub(nqn);
              var primary := WaitForDeviceReady(nqn, Word(init.nsId), POLLS, env.primaryLag);
              if primary.None? {
                return None;
              }
              var down, _ := DisconnectDevicePath(nqn, env.rollback);
              PutPut(subs0, nqn, NO_SUBSYSTEM, up, Sub(nqn));
            }
            return None;
          }
          i := i + 1;
        }
      }
      device := WaitForDeviceReady(nqn, Word(init.nsId), POLLS, env.lag);
    }

    method Disconnect(init: Initiator, env: DisconnectEnv) returns (ok: bool)
      requires Valid()
      modifies this
      ensures var nqn := Word(init.nqn);
              var (after, done) := Nvme.Disconnect(old(Sub(nqn)), env);
              Valid() && ok == done && subs == Put(old(subs), nqn, NO_SUBSYSTEM, after)
    {
      var nqn := Word(init.nqn);
      PutGet(subs, nqn, NO_SUBSYSTEM);
      var devices := Visible(Sub(nqn));
      if |devices| > 1 {
        return true;
      } else if |devices| == 1 {
        var down, _ := DisconnectDevicePath(nqn, env.down);
        if !down {
          return false;
        }
      }
      ok := WaitForDeviceGone(nqn, |devices| == 1, env.lag);
    }
  }
}
