# Simplyblock CSI driver: verified models

A Dafny model of the four parts of the driver that decide something: the node's volume lifecycle under
per-volume locks, the NVMe multipath connect, disconnect and repair loops, the controller's create and
delete, and the identifiers and arithmetic they share.

Every effect outside the driver is explicit state: mount points (absent, or present with the stack of
mounts on them), stash files (absent, saved, torn), NVMe subsystems (paths in listing order, exported
namespaces) and the storage backend (a list of volumes that itself permits duplicates). Every call to the
outside takes its answer from an environment record of the request (`StageEnv`, `UnstageEnv`,
`ConnectEnv`, ...). A mutating call may take effect and succeed (`Ok`), fail without effect (`Lost`), or
take effect and still report an error (`Late`). Theorems that quantify over such a record quantify over
every combination of faults.

## Layout

| file | part of the driver |
|---|---|
| `Strings.dfy`, `Identifiers.dfy`, `Sizes.dfy`, `Slots.dfy` | splitting and joining, volume and snapshot IDs, NQNs, MiB arithmetic, slot search |
| `Contexts.dfy` | the volume context from the API's answer through the controller and the stash to the initiator |
| `PathSort.dfy`, `Nvme.dfy`, `NvmeHost.dfy` | order of the paths, Connect, Disconnect; `NvmeHost` is the imperative form |
| `DeviceScan.dfy` | polling for an NVMe device with paths that are ignored once seen |
| `Locks.dfy` | the lock per volume ID, as atomic steps of many threads |
| `Tables.dfy`, `NodeOps.dfy`, `NodeServer.dfy` | the four node calls as functions of what they see, and as methods of a class |
| `NodeRuns.dfy` | runs of whole calls: convergence, idempotence, shared subsystems |
| `NodeResults.dfy` | what each node call leaves and exactly when it succeeds |
| `NodeSteps.dfy`, `NodeWorld.dfy`, `NodeSystem.dfy` | the calls cut into single outside steps, and their interleavings |
| `NodeProgress.dfy` | every fair run of the calls ends, and ends serially |
| `NodeCrash.dfy` | invariants of every interleaving with faults and crashes |
| `Repair.dfy`, `Monitor.dfy` | the monitor's repair round; `Monitor` is the imperative form |
| `Controller.dfy`, `ControllerSystem.dfy`, `ControllerServer.dfy` | CreateVolume and DeleteVolume: whole, interleaved, imperative |

The operations exist in up to three forms, joined by proofs: a class whose methods follow the source line
by line (`NodeServers.NodeServer`, `NvmeHosts.NvmeHost`, `ControllerServers.ControllerServer`), the
function that specifies them, and the single steps that interleave. `NodeSteps.ExecIsServe`,
`NodeWorld.ExecInIsServe` and `ControllerSystem.ExecIsCreate` connect the last two, the `ensures` of the
methods connect the first two.

## Where the code does less than its words

- Comments call publishing idempotent (`pkg/spdk/nodeserver.go:408`). Mount mode is (`TargetIdempotent`);
  block mode, and a request without a capability, add one mount per call (`BlockPublishStacks`), and undoing them takes one Unpublish each
  (`UnpublishOnePerMount`).
- Stage leaves a mount without a usable stash when something fails between the mount and the end of the
  stash write. `StageRecoverable` says exactly when; `TuneFaultStrandsMount` is a concrete family, and
  `TuneFaultHappens` an input of it for every volume that the API lists.
- Connect cleans up after itself only if it fails at the second connection. `ConnectAllOrNothing` says what is
  left in terms of which connections cannot be made; `TwoAllOrNothing` and `ThirdConnectionLeavesTwo` show that
  two connections is the bound.
- Disconnect backs off above one visible device, without looking whose the one device is
  (`DisconnectTakesOther`, `UnstageOfVanishedVolume`).
- The recheck before a repair confirms a subsystem that does not have a single path exactly when all five
  listings fail (`ConfirmedExactly`).
- DeleteVolume means to tolerate a volume that is already gone, but the read before it fails first
  (`SecondDeleteFails`); a CreateVolume that is retried and cannot publish deletes the volume that an
  earlier call made (`FailedRetryDeletes` and `RetryAfterSuccess` say exactly when); a lookup that fails for
  any reason counts as "no such volume" (`FailedLookupDuplicates`, `ProvisionUnique` and `CreateUnique` say
  exactly when that leaves two volumes of one name).
- The size arithmetic wraps for requests within one MiB of 2^63 (`CapacityExact`), and the separator in an
  NQN overlaps itself, so that a cluster called "lvol" is not recovered (`NqnRoundTrip`).

## Model

| member | source | states |
|---|---|---|
| NodeSystem.Serializable | pkg/spdk/nodeserver.go:135-249 | any interleaving of any number of Stage, Unstage, Publish and Unpublish calls, with any faults, ends in the state and with the answers of running them one at a time in the order in which they took their locks, each call exactly once, when distinct volumes own distinct paths, staging directories and NQNs |
| NodeProgress.FairRunsSerialize | pkg/spdk/nodeserver.go:135-249 | in every fair scheduling, whatever fails, all calls are answered after finitely many steps, and from then on state and answers are those of a serial run of all of them |
| NodeProgress.AllFinish | pkg/util/idlocker.go:34-39 | no fair run leaves a call waiting or unfinished for ever, whether or not volumes share paths or subsystems |
| NodeProgress.HolderFinishes | pkg/spdk/nodeserver.go:135-249 | a call that holds its lock gets to its end and releases it |
| NodeProgress.SomeoneHolds | pkg/util/idlocker.go:34-39 | while a call is unfinished, some unfinished call gets its lock |
| NodeProgress.TurnsAreFair | pkg/util/idlocker.go:34-39 | taking turns is such a scheduling |
| NodeSystem.RunSerial | pkg/spdk/nodeserver.go:135-249 | the invariant behind it, at every moment of a run: finishing the calls under way in lock order gives the serial result |
| NodeSystem.StepExecCommute | pkg/util/idlocker.go:34-39 | a single step of one volume's call commutes with the whole rest of another volume's call, so what lies between two locks is movable |
| NodeWorld.StepsCommute | pkg/spdk/nodeserver.go:135-249 | two steps that touch different things give the same answers and state in either order |
| NodeWorld.ExecInIsServe | pkg/spdk/nodeserver.go:135-249 | run without interruption on the node, the steps of a call do exactly what the whole call does |
| NodeSteps.ExecIsServe | pkg/spdk/nodeserver.go:135-249 | the same on what one call sees: the small-step and the whole-call form of all four calls agree for every fault pattern |
| NodeSteps.StepLower | pkg/spdk/nodeserver.go:135-249 | every step of every call, retries and rollback included, brings the call nearer to its end |
| NodeCrash.SafeInEveryRun | pkg/spdk/nodeserver.go:135-187 | in every interleaved run with crashes and faults at all times but between a Stage's mount and the end of its stash write, targets published in mount mode and staging targets carry at most one mount, and a mounted staging target has a stash from which its initiator and device can be rebuilt, unless its Stage is just writing it; volumes own distinct paths and staging directories but may share subsystems, and no staging target is also a publish target |
| NodeCrash.UnstageCanRebuild | pkg/spdk/nodeserver.go:200-211 | at every moment of such a run with no Stage between mount and stash write, the stash of each mounted staging target gives Unstage an initiator |
| NodeCrash.CrashSafe | pkg/spdk/nodeserver.go:135-249 | a crash outside that window keeps all of it, although every lock and every call under way is lost |
| NodeCrash.StartSafe | pkg/spdk/nodeserver.go:135-249 | the start of such a run satisfies the invariant if whatever is already mounted is in order |
| NodeResults.StageSucceeds | pkg/spdk/nodeserver.go:135-391 | Stage succeeds if and only if the check works and the path is mounted already, or the context gives an initiator, Connect finds a device, the device is mounted (directory, mount, chunk count for xfs, tune2fs for ext4; nothing in block mode), and the stash is written |
| NodeResults.StageLeaves | pkg/spdk/nodeserver.go:135-391 | after a successful Stage but in block mode the path is mounted; if it was not before, by one mount of `/dev/disk/by-id/nvme-<model>_<namespace>` with the requested or default file system and the requested flags; the stash reads back as the request's context with that device; a path mounted before is left alone |
| NodeResults.StageOwnDevice | pkg/spdk/nodeserver.go:159-183 | while the volume's own namespace is exported, the device mounted and stashed is the volume's own |
| NodeResults.StageRollsBack | pkg/spdk/nodeserver.go:168-185 | a failed Stage changes nothing before Connect, and after it takes all paths down if and only if a single device is visible and the disconnect's calls work |
| NodeResults.StageThenPublish | pkg/spdk/nodeserver.go:135-448 | publishing after Stage binds the device that Stage connected in block mode, and the path that Stage mounted otherwise |
| NodeResults.PublishSucceeds | pkg/spdk/nodeserver.go:409-448 | exactly when Publish succeeds, in each of the three modes |
| NodeResults.PublishBinds | pkg/spdk/nodeserver.go:409-448 | a successful Publish leaves a target mounted in mount mode as it was, and otherwise adds one bind mount on top: of the stashed device in block mode, else of the volume's staging path, with the request's file system and flags |
| NodeResults.PublishFails | pkg/spdk/nodeserver.go:430-447 | a failed Publish adds a mount only if the mount call reported an error late, and removes a file it could not open |
| NodeResults.UnstageLeaves | pkg/spdk/nodeserver.go:189-223 | exactly when Unstage succeeds, and that it then leaves no mount point, no stash, and the subsystem down if it showed one device |
| NodeResults.DeleteSucceeds | pkg/spdk/nodeserver.go:464-486 | a mount point is deleted if and only if the check works, at most one mount is there, and the calls that are needed work |
| NodeResults.DisconnectSucceeds | pkg/util/initiator.go:389-409 | Disconnect succeeds if and only if it backs off, nothing is visible, or every path is hit and the link goes in time |
| NodeResults.StageOnNode | pkg/spdk/nodeserver.go:135-187 | on the node, Stage touches only `<staging directory>/<volume>`, the stash in that directory and the subsystem that the context names |
| NodeResults.UnstageOnNode | pkg/spdk/nodeserver.go:189-223 | Unstage touches only those, the subsystem being the one the stash names |
| NodeResults.PublishOnNode | pkg/spdk/nodeserver.go:225-236 | Publish touches only the target path |
| NodeResults.UnpublishOnNode | pkg/spdk/nodeserver.go:238-249 | likewise Unpublish |
| NodeResults.StageThenUnstage | pkg/spdk/nodeserver.go:135-223 | a successful Stage and Unstage leave neither path nor stash, and every other path, stash and subsystem as it was |
| NodeRuns.UnstageConverges | pkg/spdk/nodeserver.go:189-223 | from at most one mount, any number of Unstage calls failing anywhere, then one without faults, end where that one alone would have ended |
| NodeRuns.OneMoreUnstage | pkg/spdk/nodeserver.go:189-223 | a single failed Unstage does not change where the next faultless one ends |
| NodeRuns.UnstageAgain | pkg/spdk/nodeserver.go:200-219 | after a faultless Unstage another one, whatever its faults, changes nothing and reports an error; the first succeeds exactly when the stash gave an initiator |
| NodeRuns.DisconnectConverges | pkg/util/initiator.go:389-409 | a disconnect that failed anywhere is completed by the next faultless one, and one that reported success had nothing left to do |
| NodeRuns.DeleteConverges | pkg/spdk/nodeserver.go:464-486 | with at most one mount, removing a mount point succeeds once its calls do, and success always means that it is gone |
| NodeRuns.TargetDepth | pkg/spdk/nodeserver.go:409-486 | over every run of Publish and Unpublish in mount mode with any faults, a target never carries two mounts |
| NodeRuns.TargetIdempotent | pkg/spdk/nodeserver.go:225-249 | repeating a successful mount-mode Publish, or a successful Unpublish, without a fault succeeds and changes nothing |
| NodeRuns.PublishConverges | pkg/spdk/nodeserver.go:409-448 | a faultless mount-mode Publish reaches exactly one bind mount from whatever a failed one left |
| NodeRuns.BlockPublishStacks | pkg/spdk/nodeserver.go:414-447 | in block mode n calls add n mounts, the first one on an absent target included; so do n calls without a capability on a path that is there |
| NodeRuns.UnpublishOnePerMount | pkg/spdk/nodeserver.go:464-486 | one Unpublish removes one mount, and reports success exactly when at most one was there |
| NodeRuns.StageRecoverable | pkg/spdk/nodeserver.go:135-187 | a Stage that leaves a new mount leaves a stash that Unstage can use if and only if the write ended with the whole file, or did not touch a stash that was good already |
| NodeRuns.LeavesMountExactly | pkg/spdk/nodeserver.go:135-391 | once Connect finds a device, a Stage leaves a new mount if and only if nothing is mounted, the mode is not block, and no call up to the mount fails |
| NodeRuns.TuneFaultStrandsMount | pkg/spdk/nodeserver.go:375-383 | if tune2fs fails after the mount, the stash is missing, the next Stage answers success at once, and no Unstage succeeds |
| NodeRuns.TuneFaultHappens | pkg/spdk/nodeserver.go:375-383 | for every volume the API lists and every reserved-blocks parameter there is a node on which that happens |
| NodeRuns.SharedSubsystemSafe | pkg/util/initiator.go:321-409 | over every sequence of calls for other volumes of a subsystem, each exported when it is called for, with any faults, a visible device of that subsystem stays visible and no path is lost |
| NodeRuns.VisitKeepsSubsystem | pkg/util/initiator.go:321-409 | one such call, its rollback included, leaves the subsystem entirely alone |
| NodeRuns.UnstageOfVanishedVolume | pkg/util/initiator.go:389-409 | an Unstage takes another volume's visible device away exactly when that device is the only one the subsystem shows |
| NodeServers.NodeServer.NodeStageVolume | pkg/spdk/nodeserver.go:135-187 | the call as written, with its deferred disconnect, leaves the node and returns the answer that `ServeIn` gives for it |
| NodeServers.NodeServer.NodeUnstageVolume | pkg/spdk/nodeserver.go:189-223 | likewise; the stash is erased last |
| NodeServers.NodeServer.NodePublishVolume | pkg/spdk/nodeserver.go:225-448 | likewise, for block and mount mode |
| NodeServers.NodeServer.NodeUnpublishVolume | pkg/spdk/nodeserver.go:238-249 | likewise |
| NodeServers.NodeServer.StageVolume | pkg/spdk/nodeserver.go:320-391 | only the staging path changes; block mode changes nothing; a mounted path is kept as it is |
| NodeServers.NodeServer.CreateMountPoint | pkg/spdk/nodeserver.go:451-461 | reports a mount that is there, makes a missing directory, passes every other error on; touches only this path |
| NodeServers.NodeServer.DeleteMountPoint | pkg/spdk/nodeserver.go:464-486 | unmounts once if mounted or corrupted, then removes; a missing path is success |
| Locks.LockSafety | pkg/util/idlocker.go:24-39 | in every run of any number of threads an ID has at most one holder, its mutex never changes once stored, and all threads of the ID wait for or hold that one |
| Locks.StepInv | pkg/util/idlocker.go:34-39 | LoadOrStore, Lock and Unlock each keep the invariant |
| Locks.MutualExclusion | pkg/util/idlocker.go:34-39 | two holders of one ID are the same thread |
| Locks.BlockedBySameId | pkg/util/idlocker.go:34-39 | a waiting thread is kept out if and only if some thread holds the same ID |
| Locks.Progress | pkg/util/idlocker.go:34-39 | while a thread is unfinished, some thread can move |
| Locks.VolumeLocks.FetchMutex | pkg/util/idlocker.go:35-36 | the first thread stores the mutex, every later one gets the stored one |
| Locks.VolumeLocks.TryLock | pkg/util/idlocker.go:37-37 | taken exactly when no thread holds this ID |
| Locks.VolumeLocks.Unlock | pkg/util/idlocker.go:38-38 | frees the thread's own mutex and nothing else |
| Nvme.ConnectAllOrNothing | pkg/util/initiator.go:321-387 | from a disconnected subsystem and for any number of connections: if every connection can be made, exactly the fetched IPs with the stashed ports are there, in order; otherwise Connect fails, and with k the first connection whose address is taken or whose attempts are all lost, the first k addresses are left, except that k = 1 leaves none when the rollback works |
| Nvme.BreaksExactly | pkg/util/initiator.go:346-371 | the loop stops at connection k if and only if k is the first whose address is taken or whose attempts are all lost |
| Nvme.TwoAllOrNothing | pkg/util/initiator.go:346-371 | with at most two connections an error of the loop leaves no path if and only if the first connection failed or the rollback works |
| Nvme.TryFromSucceeds | pkg/util/initiator.go:310-319 | a connect with retries succeeds if and only if its address is free and some attempt is not lost |
| Nvme.ConnectFindsOwn | pkg/util/initiator.go:321-387 | while the volume's own namespace is exported, Connect ends with that one or not at all; and with it if and only if the listing works, the subsystem is connected or every connection can be made, and the link shows up in time |
| Nvme.ConnectShows | pkg/util/initiator.go:381-387 | the device Connect ends with is visible and its namespace starts with the volume's |
| Nvme.ThirdConnectionLeavesTwo | pkg/util/initiator.go:353-366 | with any three or more connections there are faults after which Connect reports an error and two paths stay, rollback or not |
| Nvme.ConnectKeepsDevices | pkg/util/initiator.go:328-387 | while the subsystem has any path, Connect changes no path |
| Nvme.TryFromClean | pkg/util/initiator.go:310-319 | a connect with retries adds its path exactly once if it reports success and never otherwise |
| Nvme.ConnectFromClean | pkg/util/initiator.go:346-371 | from connection i on, the loop has added exactly the addresses before the one at which it stopped |
| Nvme.FirstMatchExact | pkg/util/initiator.go:413-426 | the glob for a namespace finds the volume's own link if and only if that link exists, and finds nothing if and only if no link starts with its number |
| Nvme.DisconnectDone | pkg/util/initiator.go:389-409 | success means that the subsystem shows no device any more, or that it showed several and nothing changed |
| Nvme.DisconnectTakesOther | pkg/util/initiator.go:389-409 | another volume's visible device is lost if and only if it is the only one visible, it can be looked up, and for every path some command for its address takes effect |
| Nvme.TeardownExactly | pkg/util/initiator.go:462-503 | no path is left if and only if there was none, or the device can be looked up and every path is hit by some command |
| Nvme.TeardownEmpties | pkg/util/initiator.go:462-503 | the paths attempted are the device's paths, each as often as listed; if all commands take effect none is left, and no path appears |
| PathSort.SortedOrderPermutes | pkg/util/initiator.go:475-488 | the order for disconnecting is a permutation of the listed paths |
| PathSort.SortedOrderLast | pkg/util/initiator.go:482-488 | no optimized path comes before one that is not |
| PathSort.InsertedInPlace | pkg/util/initiator.go:482-488 | where the non-strict comparator stops moving a path left is the front of its own half |
| PathSort.InsertionSort | pkg/util/initiator.go:482-488 | the in-place sort gives the reversed non-optimized paths followed by the reversed optimized ones |
| PathSort.Insert | pkg/util/initiator.go:482-488 | one inner loop extends the sorted prefix by one path and leaves the rest alone |
| PathSort.SortPaths | pkg/util/initiator.go:482-488 | up to 12 paths get that order, more some rearrangement |
| PathSort.SortSlicePermutes | pkg/util/initiator.go:482-488 | at any length no path is lost or doubled |
| NvmeHosts.NvmeHost.Connect | pkg/util/initiator.go:321-387 | the connect loop with its retries and rollback changes only the initiator's subsystem, to what `Nvme.Connect` gives |
| NvmeHosts.NvmeHost.Disconnect | pkg/util/initiator.go:389-409 | likewise for `Nvme.Disconnect` |
| NvmeHosts.NvmeHost.DisconnectDevicePath | pkg/util/initiator.go:462-503 | one command per listed path in sorted order, whatever the commands answer; none if resolving or listing fails |
| NvmeHosts.NvmeHost.ExecConnectWithRetry | pkg/util/initiator.go:310-319 | at most the given number of attempts, stopping at the first success |
| NvmeHosts.NvmeHost.WaitForDeviceReady | pkg/util/initiator.go:413-426 | polling finds a device exactly when one appears in time, and then the first match |
| NvmeHosts.NvmeHost.WaitForDeviceGone | pkg/util/initiator.go:429-441 | polling succeeds exactly when the device disappears in time |
| NvmeHosts.CollectPaths | pkg/util/initiator.go:475-480 | the nested append loops collect every path of every subsystem of every host, in listing order |
| Repair.RepairConverges | pkg/util/initiator.go:589-692 | over any devices of which each is passed over, repairable, or silent this time beside a repairable one: one monitor round takes every single-path subsystem with a repairable device to both addresses, leaves every other subsystem as it was, and the next round, whatever happens in it, issues no command |
| Repair.RoundRepairs | pkg/util/initiator.go:589-628 | for one subsystem alone: with a repairable device it ends repaired, with passed-over or silent ones it is unchanged, whatever devices of other subsystems do to their own |
| Repair.RoundCommands | pkg/util/initiator.go:589-692 | in a round a single-path subsystem with a repairable device gets exactly one command, to connect the missing address, and any other that fits gets none |
| Repair.RoundLeavesIdle | pkg/util/initiator.go:601-625 | a subsystem whose devices are passed over gets no command and keeps its paths, whatever happens to others |
| Repair.DeviceStep | pkg/util/initiator.go:601-625 | a repairable device repairs its subsystem exactly once, also when an earlier device of the round already did |
| Repair.OwnListKeeps | pkg/util/initiator.go:630-692 | if the API lists only addresses of the volume's own subsystem, a repair names and touches no other |
| Repair.SkippedKeeps | pkg/util/initiator.go:601-692 | without a listing, an API answer or an online node nothing is changed and no command issued |
| Repair.RoundQuiet | pkg/util/initiator.go:589-628 | a round over passed-over devices, among them all with two or more paths, local disks and volumes that need no repair, issues nothing and changes nothing |
| Repair.DeviceRepaired | pkg/util/initiator.go:601-625 | the body of the loop repairs its device's subsystem and touches no other |
| Repair.RepairCommands | pkg/util/initiator.go:630-692 | at most one connect and one disconnect, the disconnect first, only of the path at hand, and only after an online node's list of a single connection with another IP |
| Repair.RepairNeverDrops | pkg/util/initiator.go:630-692 | with two or more listed connections no subsystem loses a path |
| Repair.RepairDialsMissing | pkg/util/initiator.go:656-699 | with two addresses listed optimized-first, the only address ever dialed is the one the survivor does not have |
| Repair.RepairAddsMissing | pkg/util/initiator.go:641-699 | and it is dialed if some node in the missing role, any but the primary beside an optimized path and the primary beside another, is online and answers |
| Repair.NobodyCalls | pkg/util/initiator.go:641-699 | while no node in the missing role is online and lists anything new, no command is issued and nothing changes |
| Repair.FirstDecides | pkg/util/initiator.go:641-689 | the decision is that of the first node in the missing role that is online and lists several connections or one with another IP |
| Repair.SeveralListed | pkg/util/initiator.go:663-688 | if it lists several, one connect to the second of them beside an optimized path and to the first beside another, with 60 seconds of patience; no other subsystem changes |
| Repair.OneListed | pkg/util/initiator.go:670-682 | if it lists one at another IP, the path is disconnected and, if that reported success, the new address connected with 900 seconds |
| Repair.SingleMoves | pkg/util/initiator.go:616-682 | a "single" volume whose only path is "connecting" and that is listed at one other IP ends with just the new path |
| Repair.ConfirmSubsystemStillSinglePath | pkg/util/initiator.go:774-802 | the five rechecks confirm exactly when no listing that was obtained denies, as `Confirmed` says |
| Repair.ScanListing | pkg/util/initiator.go:784-799 | a recheck finds the subsystem and finds it single exactly when the listing shows it and never with another number of paths |
| Repair.TruthConfirms | pkg/util/initiator.go:774-802 | listings of a subsystem that really has one path confirm, however many of them fail |
| Repair.ConfirmedExactly | pkg/util/initiator.go:774-802 | with listings that tell the truth, a subsystem is confirmed if and only if it has one path or all five listings fail |
| Monitor.ReconnectSubsystems | pkg/util/initiator.go:589-628 | the loops as written issue the commands and leave the host as `Round` gives |
| Monitor.CheckOnlineNode | pkg/util/initiator.go:630-692 | the walk over the nodes acts on the first node that calls for something, and on no other |
| Monitor.ReconnectDevice | pkg/util/initiator.go:601-625 | one device: listed, judged, rechecked, repaired |
| Monitor.ConnectViaNVMe | pkg/util/initiator.go:747-761 | one attempt, without retries |
| ControllerSystem.OneVolumePerName | pkg/spdk/controllerserver.go:68-142 | in every interleaving of any number of CreateVolume calls, plain or from a source, and DeleteVolume calls, with any faults but a failing lookup, the backend never has two volumes of one name in one pool of one cluster |
| ControllerSystem.MoveSafe | pkg/spdk/controllerserver.go:68-142 | the invariant each step keeps: a call about to create holds its name's lock and its place is still free |
| ControllerSystem.StepEffect | pkg/spdk/controllerserver.go:353-407 | a step adds a volume only at its own wanted place, and only between lookup and create |
| ControllerSystem.ExecIsCreate | pkg/spdk/controllerserver.go:68-111 | run without interruption, the steps of CreateVolume do what the whole call does |
| ControllerSystem.ExecIsDelete | pkg/spdk/controllerserver.go:113-142 | likewise for DeleteVolume |
| ControllerSystem.StartSafe | pkg/spdk/controllerserver.go:68-142 | any backend without duplicates is a safe start |
| Controller.CreateKeepsUnique | pkg/spdk/controllerserver.go:68-111 | a whole call with an honest lookup keeps one volume per place, whatever else fails |
| Controller.CreateLeaves | pkg/spdk/controllerserver.go:68-111 | a successful CreateVolume answers with `cluster:pool:id` of the volume found, creating nothing, or of exactly one volume created: at the place asked for, or for a clone in its source's cluster |
| Controller.CreateSucceeds | pkg/spdk/controllerserver.go:68-111 | exactly when CreateVolume succeeds |
| Controller.CreateFails | pkg/spdk/controllerserver.go:68-111 | a failed CreateVolume loses no volume but the new or the found one, and adds none but the new one |
| Controller.SourceClusterExact | pkg/spdk/controllerserver.go:677-725 | the cluster of a clone is the first field of its source's identifier |
| Controller.DeleteExact | pkg/spdk/controllerserver.go:113-142 | exactly when DeleteVolume succeeds; only the volume named can go, it goes exactly if the delete takes effect, and every other volume stays as often as it was |
| Controller.DeleteUnparsed | pkg/spdk/controllerserver.go:113-142 | an identifier without two colons is an error and changes nothing |
| Controller.CreateRetry | pkg/spdk/controllerserver.go:84-110 | a retry of a successful CreateVolume answers with the same volume and changes nothing |
| Controller.FailedRetryDeletes | pkg/spdk/controllerserver.go:90-95 | a CreateVolume that finds its volume leaves the backend as it was if and only if it does not start, publishes and reads the volume, or cannot clean up; otherwise it deletes exactly that volume and fails |
| Controller.RetryAfterSuccess | pkg/spdk/controllerserver.go:68-111 | after a CreateVolume that succeeded: exactly when a retry keeps the volume, and that otherwise the volume whose ID the first call returned is the one deleted |
| Controller.FailedLookupDuplicates | pkg/spdk/controllerserver.go:353-407 | a plain request makes a second volume of a name if and only if the lookup fails, the name is taken, and the create reaches the backend |
| Controller.ProvisionUnique | pkg/spdk/controllerserver.go:353-407 | the same for every request: plain or a clone that may land in another cluster or pool, exactly when two volumes of one name are left |
| Controller.CreateUnique | pkg/spdk/controllerserver.go:68-111 | the same for a whole call, whose clean-up may undo the second volume |
| Controller.SecondDeleteFails | pkg/spdk/controllerserver.go:113-142 | deleting a volume that a successful call deleted is an error and changes nothing |
| Controller.AddUnique | pkg/util/nvmf.go:89-96 | a create keeps places unique if and only if it is lost, its identifier is in use, or the place was free |
| Controller.FindExact | pkg/util/nvmf.go:99-105 | the lookup finds a volume if and only if one has that name and pool, and finds such a one |
| ControllerServers.ControllerServer.CreateVolume | pkg/spdk/controllerserver.go:68-111 | the call as written, compensation included, leaves the backend and the answer of `Controller.CreateVolume` |
| ControllerServers.ControllerServer.DeleteVolume | pkg/spdk/controllerserver.go:113-142 | likewise for `Controller.DeleteVolume` |
| ControllerServers.ControllerServer.Provision | pkg/spdk/controllerserver.go:363-407 | lookup, then source or plain create |
| ControllerServers.ControllerServer.HandleSource | pkg/spdk/controllerserver.go:677-755 | clones a snapshot or, for a volume, first makes the snapshot, in the source's own cluster |
| ControllerServers.ControllerServer.GetExistingVolume | pkg/spdk/controllerserver.go:353-361 | a failed and an empty lookup look alike |
| Contexts.ContextEndToEnd | pkg/util/util.go:238-315 | from the API's answer through controller, Stage, stash file and Unstage: Unstage builds the initiator that Stage used, its connections are the API's addresses in order, and the staged device path survives; for every non-empty answer and all parameters whose "type", if given, is tcp |
| Contexts.ControllerInitiator | pkg/util/initiator.go:160-191 | every field of that initiator in terms of the API's answer, whatever the other storage class parameters |
| Contexts.InfoOverrides | pkg/spdk/controllerserver.go:97-108 | no parameter but "type" survives against the volume's information, and every other parameter is kept |
| Contexts.StagedInitiator | pkg/spdk/nodeserver.go:168-185 | what Stage adds to the context does not reach the initiator |
| Contexts.StashRoundTrip | pkg/util/util.go:256-315 | a stashed context reads back as it was |
| Contexts.ConvertEntries | pkg/util/util.go:238-254 | the loop over the decoded file copies every entry, and fails exactly if some value is no string, in whatever order it visits them |
| Contexts.ConnectionsRoundTrip | pkg/util/jsonrpc.go:293-313 | the connection list decodes to what was encoded, in order |
| Contexts.GetVolumeInfo | pkg/util/jsonrpc.go:271-317 | the append loop lists every address of the answer in order |
| Identifiers.NqnRoundTrip | pkg/util/initiator.go:568-577 | with colon-free clusters and separator-free parts, parsing an NQN undoes printing if and only if the cluster is not "lvol" |
| Identifiers.SeparatorPosition | pkg/util/initiator.go:568-577 | where the separator is first found, in both cases |
| Identifiers.VolumeParsePrint | pkg/spdk/controllerserver.go:409-425 | a volume ID parses if and only if it has two colons, and printing the fields restores it |
| Identifiers.VolumePrintParse | pkg/spdk/controllerserver.go:403-425 | parsing undoes printing if and only if no field has a colon |
| Identifiers.PrintedVolume | pkg/spdk/controllerserver.go:403-425 | a printed ID with a colon in a field does not parse at all, so it is never taken for another volume's |
| Identifiers.SnapshotParsePrint | pkg/spdk/controllerserver.go:427-441 | likewise with one colon |
| Identifiers.SnapshotPrintParse | pkg/util/nvmf.go:149-149 | likewise for the printed snapshot ID |
| Identifiers.AddressRoundTrip | pkg/util/initiator.go:579-587 | the IP is recovered from a listed address if it has no comma |
| Strings.SplitJoin | pkg/spdk/controllerserver.go:409-441 | joining the parts of a split restores the string, for any separator |
| Strings.JoinSplit | pkg/spdk/controllerserver.go:409-441 | splitting undoes joining if and only if no part has the separator |
| Slots.GetAvailablePhysicalFunction | pkg/util/util.go:219-235 | the nested loops find the lexicographically least free slot, and fail exactly when none is free |
| Slots.AllocationExhausts | pkg/util/util.go:219-235 | allocating repeatedly hands out every free slot exactly once, in strictly increasing order |
| Slots.AllocationExists | pkg/util/util.go:219-235 | and comes to an end |
| Sizes.CapacityExact | pkg/spdk/controllerserver.go:364-375 | for every positive int64 request the reported capacity is the least multiple of a MiB that holds it if and only if the request is at most 2^63 - 2^20; above that it is not positive |
| Sizes.DefaultCapacity | pkg/spdk/controllerserver.go:364-375 | a request without a size gets one GiB |
| DeviceScan.CheckIfNvmeDeviceExists | pkg/util/util.go:112-135 | a poll returns the first file that was in no earlier poll and matches, if there is one, and remembers exactly the files up to it, or all |
| DeviceScan.DetectNvmeDeviceName | pkg/util/util.go:138-154 | over all rounds a device is found exactly if some file matches in the very poll that lists it first |

## Left out

- HTTP, JSON text, gRPC, Kubernetes reads, the clock and logging: their answers are parameters, JSON values are abstract trees, and a poll is a number of rounds.
- Running `nvme`, `mount`, `tune2fs` and mkfs: one step with an answer each; mount and format options are not part of the state.
- The cache initiator: NewInitiator gives none for it, so such a volume cannot be staged in the model.
- Names the kernel assigns: a path of a subsystem is its (IP, port) pair with an ANA state; `/dev` names, partition links and other links beside those the driver's patterns look for are not modelled.
- isNqnConnected searches for the NQN as a substring; the model asks for the exact NQN, which is the same while no connected NQN contains another. A device link belongs to the subsystem of its NQN.
- PathSort.SortSlice: above 12 paths Go's sort changes algorithm; the model then allows any sequence of exchanges, so only the permutation is known.
- Files: contents under a mount point, nested or overlapping paths, a volume ID equal to the stash file's name, and the difference between a file and a directory at a target.
- Panics: an index out of range in Connect ends the call with an error at that point; a nil volume context or nil content source is not modelled.
- Glob and readlink errors with constant patterns, which cannot occur or are treated as an empty answer.
- Slots.GetAvailablePhysicalFunction: a bridge count of 2^32 - 1 modulo 2^32 is excluded, because the source's counter would then wrap and not pass its bound.
- NodeSystem.Serializable: the device wait after connecting and the wait after disconnecting are one step each, volumes that share a subsystem are covered by NodeRuns.SharedSubsystemSafe instead, and the monitor, which takes no lock, does not take part.
- Nvme.ConnectAllOrNothing: excludes a connect that takes effect and still reports an error (`Clean`); the retry would then find its own address taken.
- Repair.RepairConverges: a repairable device has its API list two addresses, the optimized one first, and its single path healthy at the address of its role.
- NodeCrash.SafeInEveryRun: a fault or crash between a Stage's mount and the end of its stash write is excluded, because NodeRuns.StageRecoverable and NodeRuns.TuneFaultStrandsMount show that the claim is false there.
- NodeRuns.UnstageConverges: asks for at most one mount on the staging target, which NodeCrash.SafeInEveryRun keeps; with more, each Unstage removes one.
- ControllerSystem.OneVolumePerName: excludes a failing lookup and clones whose source lies in another cluster or pool than the request, for which Controller.ProvisionUnique shows exactly when the claim is false.
- ControllerServers.ControllerServer and NodeServers.NodeServer hold no lock: their methods are one call alone, and what the locks are for is stated over the steps in ControllerSystem and NodeSystem.
- Identifiers.AddressRoundTrip: an IP with a comma, which no address has; the same holds for the repair lemmas that compare IPs.
- Repair.OneListed: a single listed connection of another subsystem than the path's is not covered; Repair.RepairCommands bounds the commands there.
- prepareCreateVolumeReq: reduced to whether it succeeds. Capability validation and the encryption keys are not modelled.
- DeviceScan: reading a file and matching its text is one oracle answer per file and poll.
- ToLower covers ASCII letters only.
- NodeExpandVolume, ControllerExpandVolume, ListSnapshots, CreateSnapshot and DeleteSnapshot as calls, statistics, the identity server and the XPU setup: they hold no lock or mostly pass a request on.
