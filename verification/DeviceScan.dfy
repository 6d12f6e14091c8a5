/** Polling sysfs for the NVMe device of a model: every uuid file is read in one round only. */
module DeviceScan {
  import opened Strings

  const ROUNDS: nat := 20

  /** One poll: the uuid files that the glob lists, and those that read as the wanted model at that time. */
  datatype Poll = Poll(files: seq<string>, matching: set<string>)

  /** `file` is listed in some poll before number `k`, or in poll `k` before position `i`. */
  ghost predicate ListedBefore(polls: seq<Poll>, k: nat, i: nat, file: string)
    requires k < |polls| && i <= |polls[k].files|
  {
    || (exists m | 0 <= m < k :: file in polls[m].files)
    || file in polls[k].files[..i]
  }

  /** The file is listed for the first time and matches right then. */
  ghost predicate FreshMatch(polls: seq<Poll>, k: nat, i: nat)
    requires k < |polls| && i < |polls[k].files|
  {
    polls[k].files[i] in polls[k].matching && !ListedBefore(polls, k, i, polls[k].files[i])
  }

  /** The first file that is listed for the first time and matches; every file up to it is remembered. */
  method CheckIfNvmeDeviceExists(polls: seq<Poll>, k: nat, ignored: set<string>)
    returns (device: Option<string>, visited: set<string>)
    requires k < |polls|
    requires forall f :: f in ignored <==> exists m | 0 <= m < k :: f in polls[m].files
    ensures device.Some? ==>
              exists i | 0 <= i < |polls[k].files| ::
                && FreshMatch(polls, k, i) && device.value == polls[k].files[i]
                && (forall j | 0 <= j < i :: !FreshMatch(polls, k, j))
                && (forall f :: f in visited <==> f in ignored || f in polls[k].files[..i + 1])
    ensures device.None? ==> forall i | 0 <= i < |polls[k].files| :: !FreshMatch(polls, k, i)
    ensures device.None? ==> forall f :: f in visited <==> f in ignored || f in polls[k].files
  {
    visited := ignored;
    var files := polls[k].files;
    for i := 0 to |files|
      invariant forall f :: f in visited <==> f in ignored || f in files[..i]
      invariant forall j | 0 <= j < i :: !FreshMatch(polls, k, j)
    {
      assert files[..i + 1] == files[..i] + [files[i]];
      if files[i] in visited {
        continue;
      }
      visited := visited + {files[i]};
      if files[i] in polls[k].matching {
        assert FreshMatch(polls, k, i);
        return Some(files[i]), visited;
      }
    }
    assert files[..|files|] == files;
    return None, visited;
  }

  /**
   * detectNvmeDeviceName finds a device exactly if some file matches in the very poll that lists it first;
   * a file that is still unreadable or different then is never looked at again.
   */
  method DetectNvmeDeviceName(polls: seq<Poll>) returns (device: Option<string>)
    requires |polls| == ROUNDS
    ensures device.Some? ==>
              exists k, i | 0 <= k < ROUNDS && 0 <= i < |polls[k].files| ::
                FreshMatch(polls, k, i) && device.value == polls[k].files[i]
    ensures device.None? ==>
              forall k, i | 0 <= k < ROUNDS && 0 <= i < |polls[k].files| :: !FreshMatch(polls, k, i)
  {
    var ignored: set<string> := {};
    for second := 0 to ROUNDS
      invariant forall f :: f in ignored <==> exists m | 0 <= m < second :: f in polls[m].files
      invariant forall k, i | 0 <= k < second && 0 <= i < |polls[k].files| :: !FreshMatch(polls, k, i)
    {
      var visited;
      device, visited := CheckIfNvmeDeviceExists(polls, second, ignored);
      if device.Some? {
        return;
      }
      ignored := visited;
    }
    return None;
  }
}
