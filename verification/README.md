# Harvester CSI driver: the protocol over shared Kubernetes objects

The driver answers Container Storage Interface calls by editing objects of a host cluster that other
programs edit at the same time: it reads, decides, writes on condition that nothing changed, may fail at any
call, and is called again. This project models that protocol and proves what it keeps.

How the pieces fit:

- `Options` and `Replies` are the shared vocabulary.
- `OptimisticStore` is optimistic concurrency on one object for any kind of content: any number of writers
  with private copies, any interleaving, other writers. Its main theorem (every interleaving is serial) is
  used three times: for the VM spec, for the taints of a node and for the size of a claim.
- `NamedItems`, `VirtualMachine` and `HotplugProtocol` are the VM spec, the JSON patches sent for it
  (RFC 6902; an absent array is not an empty one), what the three operations are meant to do, and whole runs.
- `HostMachine` is a VM behind the API server, with interference between any two calls. `HotplugWriters`,
  `Attach`, `Exclusivity`, `NodeTaints` and `NodeController` are the code that talks to it.
- `HostCluster` holds claims, restores and NetworkFilesystems behind an API server; `VolumeLifecycle`,
  `SharedVolumes` and `Controller` are the calls over it.
- `ClaimSizes`, `ClaimExpansion`, `SnapshotIds`, `SnapshotDeletion`, `SnapshotListing`, `Mounts`, `SemVer` and
  `VersionGate` are the smaller cores.

A method of a class that stands for the API server may refuse a call, or serve it and lose the reply, when
its `faulty` flag is set; and before it serves a call everybody else may take steps, within the limits its
`Drift`, `EnvMoves`, `Grown` or `Settles` predicate states; each covers any number of steps (for example
`HostMachine.DriftAgain`, `HostCluster.EnvAgain`). So a contract of a driver method holds for every
failure and every interference, and a clause with `!faulty` says what happens when every call is answered.
`HostCluster.Cluster` also carries ghost monitors, updated after every call and every step of the host:
`alwaysOwned`, `restoresFirst` and `wanted`, the NetworkFilesystems that are on. `HostVM.watched` is the one volume
nobody but the driver and KubeVirt touches; what is said of it holds whoever else writes the VM. A contract also
says what happens in periods of order: `HostVM.quiet` is one without other writers of the VM, `HostVM.prompt` one
in which KubeVirt brings a running instance in line with the spec before each read, `HostVM.steady` one in which no
instance starts or stops, `Cluster.still` and `AttachmentLists.still` ones in which the host side does nothing.
They are used for answers that must be OK, for the whole spec a removal leaves, and for runs that exhibit a failure.

Assumptions about the environment, each stated in the predicate named above: a resource version names one
content; KubeVirt adds a volume to an instance only from the spec and drops only one missing from the spec;
nobody but the driver creates or deletes claims, restores and NetworkFilesystems, except that a restore makes
its claim and takes it along; capacity does not shrink; the mount check tells the truth; the list of snapshots
stays the same while its pages are read; an index of pods, when it answers, is up to date about the pods it
lists, which are the running ones; a volume belongs to one claim (`Belongs`); the API server admits no node with two taints of one key and effect.

## What turned out false of the code, and when it holds

- A removal patch, or an add, is refused for ever on a VM whose volume or disk array is absent
  (`VirtualMachine.ServeIsEffect`); the legacy removal is not, so the two forms of removing all volumes agree
  exactly when both arrays are present (`NodeController.RemoveAllHotplugVolumes`).
- Behind a weaker taint of the same key the controller does not see its own out-of-service taint: it sends it
  again on every event, which the API server refuses as a duplicate (`NodeTaints.HiddenTaintRepeats`), and it
  never gets to the removal of volumes. Neither happens exactly when the node starts `Sound`
  (`NodeTaints.NeverDuplicatesIffSound`, `NodeTaints.RemovalReachableIffSound`).
- Unpublish calls repeated until OK do not always end: the legacy removal goes to the running instance, which gets
  the volume back from the spec. While no instance starts or stops, retries end exactly when the removal is
  declarative, the volume is not in the spec, or no instance runs (`Attach.RetryUnpublish`).
- A block volume can be published to two guest nodes whose machines are on one host node, with every call
  answered and every listing working, if the first answer is not recorded in the guest before the second call
  (`Exclusivity.LateRecordSharesVolume`). Runs stay safe exactly when their publishes are `Careful`
  (`Exclusivity.ExclusiveRun`); when the host lists every holder, only unrecorded answers for machines on the
  same host node matter (`Exclusivity.ExclusiveRunWithHostList`).
- Replaying a delete is not always OK: a restore or NetworkFilesystem that is being deleted and goes between
  its read and its deletion makes the call fail (`VolumeLifecycle.DeleteVolume`), which is possible exactly
  while it is being deleted (`VolumeLifecycle.RestoreCanGoIffTerminating`,
  `VolumeLifecycle.NfsCanGoIffTerminating`); without other failures the third call at the latest is OK
  (`VolumeLifecycle.RetryDelete`). A shared claim that is not bound cannot be deleted at all. The log line at
  `pkg/csi/controller_server.go:571` says the call continues with the claim; the code returns the error, and so
  does the model.
- The index that keeps a shared volume from being switched off lists running pods only and its keys collide: a
  volume is kept exactly when a running pod uses it or has a claim under the same key
  (`SharedVolumes.IndexKeepsIff`), so one whose pods have not started is switched off under them
  (`SharedVolumes.UnpublishWanted`).
- An OK publish of a shared volume leaves it wanted enabled exactly when it was `Steady`; an unpublish while it
  is being enabled loses that (`SharedVolumes.PublishRWXVolume`, `SharedVolumes.RepublishEnabling`).
- A claim that is a Longhorn filesystem is unpublished as a shared volume even when it was published to a
  single node: both answers are OK and the volume stays in the VM spec
  (`Controller.PublishThenUnpublishFilesystem`). An attached volume unpublished until the answer is OK is gone
  from its machine exactly when it is not such a claim (`Controller.UnpublishUntilOK`).
- Creating a claim is not idempotent (`VolumeLifecycle.CreateVolume`); creating from a backup is
  (`VolumeLifecycle.CreateFromBackup`).
- Backups ignore the snapshot filter and come with every page (`SnapshotListing.BackupsIgnoreSnapshotId`,
  `SnapshotListing.ListAll`).
- The version gate compares major and minor, except that a string that is no version passes every gate
  although it comes before all versions (`VersionGate.NoVersionPasses`), and so does anything with a negative
  bound (`VersionGate.GateIsMajorMinor`).

## Model

| member | source | states |
|---|---|---|
| OptimisticStore.Serializable | pkg/csi/controller_server.go:1025-1029 | in every interleaving of writers with private copies, the object ends as if the accepted operations had each read, computed and written at once, in order of acceptance, and each of them is acceptable in its place |
| OptimisticStore.SendIsAtomicOrNothing | pkg/csi/controller_server.go:1025-1029 | a write from a fresh copy is the whole atomic operation; one from a stale copy changes nothing |
| OptimisticStore.WriteInPlace | pkg/csi/controller_server.go:1025-1029 | the k-th committed write of any run is its operation run atomically on the object as the writes before it left it |
| VirtualMachine.ServeIsGuarded | pkg/csi/controller_server.go:1027-1029 | no patch is accepted on a VM whose version differs from the one it was computed from |
| VirtualMachine.ServeIsEffect | pkg/csi/controller_server.go:999-1122 | run atomically, a patch is accepted if and only if there is something to send and the arrays it edits exist, and its result is the intended effect: one volume and disk more, or all entries of the names less |
| VirtualMachine.SilentMeansDone | pkg/csi/controller_server.go:1014-1017 | a writer that sends nothing found its effect already there |
| HotplugProtocol.EveryPatchHasItsEffect | pkg/csi/controller_server.go:993-1122 | in every run of adds, removes, remove-alls and other writers, every accepted patch had exactly its operation's effect on the spec it found |
| HotplugProtocol.SendOutcome | pkg/csi/controller_server.go:1070-1072 | what any send in any reachable state does to the spec: the whole operation, or nothing |
| HotplugProtocol.LastWriteDecides | pkg/csi/controller_server.go:1027-1063 | no lost update: after any run, the last committed write touching a name decides whether its volume and its disk are there |
| HotplugProtocol.BystandersKept | pkg/csi/controller_server.go:1084-1110 | volumes and disks neither targeted nor hot-pluggable keep value and order through every run |
| HotplugProtocol.IncludingCompletes | pkg/csi/controller_server.go:999-1063 | appending an item unless its name is there: an entry of the name is there, the item itself if there was none, exactly one if names were unique, and nothing else changes |
| HotplugProtocol.AddCompletes | pkg/csi/controller_server.go:999-1063 | an add from any half-present state does that for the volume and for the disk |
| HotplugProtocol.AddedEntries | pkg/csi/controller_server.go:1030-1063 | what is appended: a volume that is the hot-pluggable claim of its name, a disk on the scsi bus, each only if the name is missing |
| HotplugProtocol.RemoveAllFindsAdded | pkg/controller/node/controller.go:148-153 | an added volume is among the hot-plugged ones, and a removal of all of them leaves neither it nor its disk |
| HotplugProtocol.AlwaysWellFormed | pkg/controller/node/controller.go:168-181 | every reachable spec keeps volume names unique, disk names unique and a disk for each hot-plugged volume |
| HotplugWriters.BuildAdd | pkg/csi/controller_server.go:999-1063 | the patch asks for exactly the part that is missing, volume or disk or both, under the version read; nothing if both are there |
| HotplugWriters.AddVolumeToVM | pkg/csi/controller_server.go:993-1075 | the call is one step of the protocol: it read a state, its request met a later one, the VM is that one or the delivered write; OK means nothing to do at the read or the add done atomically, and a volume that was not there is there as a hot-pluggable claim, its disk as a scsi one; answered calls are OK exactly in those cases |
| HotplugWriters.RemoveVolumeFromVM | pkg/csi/controller_server.go:1078-1122 | the same for a removal |
| Attach.CheckVolumeExistsInVM | pkg/csi/controller_server.go:946-961 | the answer is the truth at the reply; a missing VM has no volumes |
| Attach.CheckVolumeExistsInVMI | pkg/csi/controller_server.go:963-978 | the answer is the truth at the reply, counting hot-plugged entries only |
| Attach.IsVolAttached | pkg/csi/controller_server.go:980-990 | two separate reads together still tell the truth at the reply about a volume nobody else touches |
| Attach.HotplugVolumeToVM | pkg/csi/controller_server.go:733-760 | success means the volume is in the spec, hot-pluggable if it was not there, in both forms; with calls answered the declarative form fails exactly when the patch is refused, the legacy one exactly when the machine is missing |
| Attach.AttachVolume | pkg/csi/controller_server.go:709-786 | OK means the volume is in the spec, hot-pluggable if it was not there, and in the instance when the reply is given; one already attached is answered at once without a write; with calls answered one that is not gets into the spec in either form, and is answered OK when KubeVirt is prompt; a missing machine or a refused patch is an error |
| Attach.UnplugVolumeFromVM | pkg/csi/controller_server.go:905-944 | a removal sent as a patch, or without an instance, took the volume out of the spec; a legacy one to the instance leaves the spec as it is; whatever fails, nothing of the volume comes back |
| Attach.RemoveVolumeFromHostVM | pkg/csi/controller_server.go:881-903 | says truthfully whether a removal was sent; with calls answered one is sent for a volume in the spec, and nothing to remove is said exactly when it is gone from spec and instance; whatever fails, what is left to remove does not grow |
| Attach.UnpublishVolume | pkg/csi/controller_server.go:865-876 | OK means gone from spec and instance; a call that sends a removal, or starts with the volume in the spec, never answers OK; with calls answered a volume in the spec is asked to go and answered Aborted, and one that is gone is answered OK; without both arrays a patch changes nothing |
| Attach.RetryRound | pkg/csi/controller_server.go:842-944 | one retry after KubeVirt reconciled, in either form: it failed, or answered OK with nothing left, or took the volume out of the spec, except that a legacy one against a running instance leaves it there |
| Attach.RetryUnpublish | pkg/csi/controller_server.go:842-944 | with any API failures and other writers of the VM, in either form: OK means gone from spec and instance; the second call that does not fail is OK at the latest, except that legacy retries on a volume in the spec of a running machine are never OK; with a steady instance, exactly when retries end |
| Exclusivity.CheckHostVA | pkg/csi/controller_server.go:816-823 | settled if and only if every host attachment of the volume names this host node |
| Exclusivity.CheckGuestVA | pkg/csi/controller_server.go:832-839 | settled if and only if every guest attachment of the volume that is marked attached names this node |
| Exclusivity.VASettled | pkg/csi/controller_server.go:789-806 | for a block volume and a working listing, settled if and only if there is no conflict on either side; without a listing, or for another volume, always settled |
| Exclusivity.PublishRWO | pkg/csi/controller_server.go:702-730 | OK of a block publish with a working listing means no other guest node is marked attached, no host attachment names another host node, and the volume is in spec and instance; with calls answered, a volume nothing stands against is answered OK, any other DeadlineExceeded |
| Exclusivity.SafeIff | pkg/csi/controller_server.go:827-840 | no continuation of recordings marks a volume attached to two nodes if and only if no volume has two nodes among attachments and unrecorded answers |
| Exclusivity.ExclusiveRun | pkg/csi/controller_server.go:702-717 | over every run, host-side check included, no recording can ever mark a block volume attached to two guest nodes if and only if every publish is careful |
| Exclusivity.ExclusiveRunWithHostList | pkg/csi/controller_server.go:809-840 | when the host lists every holder, the same holds if and only if no publish comes while an answer for another machine on the same host node is unrecorded |
| Exclusivity.CarefulCall | pkg/csi/controller_server.go:702-876 | one call of the driver on a block volume: an answer is kept until it is recorded or withdrawn, and with calls answered a careful publish nothing stands against is answered |
| Exclusivity.CarefulCalls | pkg/csi/controller_server.go:702-876 | any sequence of such publish calls, recorded answers and unpublish calls over any machines keeps a block volume on one guest node |
| Exclusivity.LateRecordSharesVolume | pkg/csi/controller_server.go:789-840 | two publish calls for two machines on one host node, every call answered and every listing working: both OK, both machines have the volume, and it ends marked attached to two guest nodes |
| NodeTaints.EveryUpdate | pkg/controller/node/controller.go:92-139 | in every run of node events, stale ones included, each accepted update added the taint to an unmarked node seen down with its VM, or removed it from a marked node seen up with its VM, and kept the other taints |
| NodeTaints.OtherTaintsKept | pkg/controller/node/controller.go:115-139 | taints with another key keep value and order through every run |
| NodeTaints.SoundForever | pkg/controller/node/controller.go:95-138 | at most one out-of-service NoExecute taint, and none hidden behind a weaker one, in every reachable state, from such a state |
| NodeTaints.ValidForever | vendor/k8s.io/api/core/v1/taint.go:21-25 | a remark about the server: it commits only what it admits, so the taint never occurs twice |
| NodeTaints.NeverDuplicatesIffSound | pkg/controller/node/controller.go:239-249 | whatever the events, the controller never sends the taint for a node that has it if and only if the node starts sound |
| NodeTaints.RemovalReachableIffSound | pkg/controller/node/controller.go:98-110 | some events make the controller remove the volumes if and only if the node starts sound |
| NodeTaints.SecondEventRemoves | pkg/controller/node/controller.go:104-110 | on a node without a taint of the key the second event of node and VM down removes the volumes |
| NodeTaints.HiddenTaintRepeats | pkg/controller/node/controller.go:239-249 | behind a weaker taint of the same key the second event sends the taint again and is refused |
| NodeTaints.MarkedIff | pkg/controller/node/controller.go:239-268 | a node counts as marked if and only if its first out-of-service taint is a NoExecute one |
| NodeTaints.UpClears | pkg/controller/node/controller.go:102-127 | from any valid marked node, one fresh event of node and VM up leaves exactly the taints with another key |
| NodeTaints.TaintBeforeRemoval | pkg/controller/node/controller.go:104-110 | in every run from an unmarked node, volumes are removed only after the controller's taint was accepted |
| NodeController.GetNodeTaint | pkg/controller/node/controller.go:239-249 | finds the first taint with the out-of-service key, or none if and only if there is none |
| NodeController.RemoveTaint | pkg/controller/node/controller.go:115-127 | writes exactly the other taints in order, if the version read is still current |
| NodeController.HandleNodeAndVMHealth | pkg/controller/node/controller.go:92-112 | what an event leaves, by what it shows: both up and marked, the other taints; both down and unmarked, the taint at the end; both down and marked, a hot-plugged volume gone whoever else writes the VM, all of them if nobody does; anything else, nothing is touched; with calls answered only a stale event, a taint already there or a refused patch fails; one event is one step of the taint protocol |
| NodeController.CollectHotplugNames | pkg/controller/node/controller.go:148-153 | exactly the names of hot-pluggable volumes |
| NodeController.RemoveAllHotplugVolumes | pkg/controller/node/controller.go:141-165 | in both forms and with other writers, success means a volume is gone if it was hot-plugged and as it was if not, and a failed call leaves it either way; one step of the hot-plug protocol in patch form; with nobody else writing, both forms end in the same spec, except that the patch is refused and changes nothing when an array is absent |
| NodeController.RemoveAllByPatch | pkg/controller/node/controller.go:168-210 | the request of a remove-all that read this VM, delivered to the current one |
| NodeController.RemoveAllBySubresource | pkg/controller/node/controller.go:213-225 | for every order of the names and with other writers, a volume among the names removed so far is gone and any other as it was; with nobody else writing, the spec ends without exactly those names, all of them on success |
| NodeController.StoppedRemovalResumes | pkg/controller/node/controller.go:213-225 | stopping after any names and starting again from a fresh read ends in the same spec |
| NodeController.RemoveUntilOK | pkg/controller/node/controller.go:104-165 | the removal repeated until it succeeds, in either form, whatever stopped it before, ends with a hot-plugged volume gone, and in the spec of one that did not stop; with calls answered it succeeds unless the patch is refused |
| NodeController.AttachThenRemoveAll | pkg/controller/node/controller.go:141-165 | a volume the driver attached is gone after a removal that succeeds, in either form and whoever else writes the VM |
| VolumeLifecycle.CreateNetworkFilesystem | pkg/csi/controller_server.go:502-520 | success means the NetworkFilesystem is there, made disabled or found |
| VolumeLifecycle.WaitForLHVolumeName | pkg/csi/controller_server.go:2193-2220 | success means the claim knows its volume; a claim of the driver's stays the same claim |
| VolumeLifecycle.AddNetworkFilesystem | pkg/csi/controller_server.go:476-490 | the claim made before stays; OK means its NetworkFilesystem is there; without failures only waiting too long is not OK |
| VolumeLifecycle.CreateVolume | pkg/csi/controller_server.go:463-500 | ownership holds after every call even when it fails anywhere; OK means the claim asked for and, for a shared one, its NetworkFilesystem are there; without failures only a volume not bound in time is not OK; not idempotent |
| VolumeLifecycle.CreateFromBackup | pkg/csi/controller_server.go:386-425 | OK means the restore is finished; without failures the restore is there afterwards and OK is answered exactly when it is finished; repeating it changes nothing |
| VolumeLifecycle.DeleteVolume | pkg/csi/controller_server.go:586-633 | no claim is deleted while a restore of its name exists, ownership holds throughout, only volumes of this claim are taken down, OK means the deletion was accepted; from whatever state earlier calls left, a call without failures succeeds or an object being deleted just went, and then less is left to go wrong; an unbound shared claim is refused and stays as it is |
| VolumeLifecycle.RetryDelete | pkg/csi/controller_server.go:586-633 | repeated without failures from any state earlier calls left, the third call at the latest is OK, the second if no restore has the name, the first if nothing is being deleted |
| VolumeLifecycle.DeleteRestoreIfExists | pkg/csi/controller_server.go:564-584 | says truthfully whether there was a restore and its deletion was accepted; without failures it fails exactly when the restore went between its lookup and its deletion |
| VolumeLifecycle.RestoreCanGoIffTerminating | pkg/csi/controller_server.go:576-579 | that can happen if and only if the restore was already being deleted |
| VolumeLifecycle.NfsCanGoIffTerminating | pkg/csi/controller_server.go:617-623 | the NetworkFilesystem can go between its lookup and its deletion if and only if it was already being deleted |
| VolumeLifecycle.DeleteClaim | pkg/csi/controller_server.go:606-632 | the NetworkFilesystem goes before the claim; OK means the claim is gone or being deleted |
| VolumeLifecycle.DropNetworkFilesystem | pkg/csi/controller_server.go:617-623 | success means it is gone or being deleted; without failures it fails exactly when it went between its lookup and its deletion |
| SharedVolumes.PublishEnablesIffSteady | pkg/csi/controller_server.go:1956-1965 | after an OK publish the volume is wanted enabled if and only if it was steady |
| SharedVolumes.UnpublishDisablesIffSteady | pkg/csi/controller_server.go:1978-2007 | after an OK unpublish the index does not keep, it is wanted disabled if and only if being disabled meant wanted disabled |
| SharedVolumes.RepublishWhileEnabling | pkg/csi/controller_server.go:1956-1959 | the values a publish, a step of the host to being enabled, an unpublish and a publish leave: wanted disabled |
| SharedVolumes.RepublishEnabling | pkg/csi/controller_server.go:1956-2009 | the calls themselves: a volume still being enabled, unpublished and published again with two OKs, ends wanted disabled |
| SharedVolumes.SwitchOnFound | pkg/csi/controller_server.go:1956-1966 | the switch is written, or nothing had to be; OK leaves the volume wanted enabled if and only if it was steady |
| SharedVolumes.PublishRWXVolume | pkg/csi/controller_server.go:1939-1966 | OK means exactly the switch was written, or nothing had to be, and leaves the volume wanted enabled if and only if it was steady when looked up; without failures OK is answered exactly when it is there and nobody wrote it in between; a NetworkFilesystem is made again only for a claim not being deleted and that call is never OK; ownership holds throughout; no volume is taken down |
| SharedVolumes.PublishShared | pkg/csi/controller_server.go:683-700 | the whole call through the reads of the claim: OK means the claim read is bound and a shared one is switched on, exactly if it was steady; missing is Internal, unbound Aborted; with calls answered and the host still, OK if and only if the claim is bound and, when shared, its NetworkFilesystem is there |
| SharedVolumes.RestoredOwnerCanVanish | pkg/csi/controller_server.go:266-271 | why a restored volume must not get a NetworkFilesystem |
| SharedVolumes.WriteDesired | pkg/csi/controller_server.go:1962-1965 | OK means the switch is written on what was met; with calls answered that is exactly when nobody wrote the NetworkFilesystem after its lookup |
| SharedVolumes.RecreateNetworkFilesystem | pkg/csi/controller_server.go:1945-1954 | a missing one is made again, disabled, and keeps its claim as owner |
| SharedVolumes.IndexKeepsIff | vendor/github.com/harvester/harvester/pkg/util/volume.go:143-155 | the index keeps a volume from being switched off if and only if it answers and a running pod uses the volume or has a claim under the same key |
| SharedVolumes.IndexKeysCollide | vendor/github.com/harvester/harvester/pkg/util/volume.go:148-152 | a running pod of another claim, in another namespace, keeps the volume |
| SharedVolumes.SwitchOffUnused | pkg/csi/controller_server.go:1980-2009 | what the lookup of users leads to: kept, or switched off exactly when nobody wrote in between |
| SharedVolumes.UnpublishRWXVolume | pkg/csi/controller_server.go:1968-2009 | only this volume can be switched off, and not one the index keeps; OK leaves a kept one wanted as it was and any other wanted disabled if and only if being disabled meant that; when OK is answered, exactly; a missing NetworkFilesystem is an error |
| SharedVolumes.UnpublishWanted | pkg/csi/controller_server.go:1991-2009 | with calls answered and the host still, a wanted volume is switched off exactly when the index does not keep it, also under pods that are not running |
| Controller.ControllerPublishVolume | pkg/csi/controller_server.go:669-730 | a missing claim is Internal, an unbound one Aborted; with a multi-node capability no machine is touched and OK means a shared Longhorn volume was switched on, exactly if it was steady, with the exact condition for OK; with a single-node one OK means attached, hot-pluggable if it was not there, bound and exclusive; with calls answered a bound volume nothing stands against is answered OK on any machine that can take it |
| Controller.UnpublishClaim | pkg/csi/controller_server.go:860-863 | the shared branch of an unpublish: OK means switched off unless the index keeps it; with calls answered and the host still, OK exactly when the NetworkFilesystem is there and, to be switched off, its claim is known in the guest |
| Controller.UnpublishBound | pkg/csi/controller_server.go:858-876 | the kind of the claim alone chooses between the machine and the switch, with what each branch promises |
| Controller.ControllerUnpublishVolume | pkg/csi/controller_server.go:843-876 | a missing claim is Internal, an unbound one Aborted, and the kind of the claim alone chooses the branch; OK means gone from the machine unless the claim is a shared Longhorn one, for which the machine is never touched and OK means switched off unless the index keeps it; with calls answered a volume in the spec is asked to go and one that is gone is OK; only volumes of this claim are taken down, and none under a running pod with an index that answers |
| Controller.PublishThenUnpublishFilesystem | pkg/csi/controller_server.go:860-863 | with every call answered, a single-node Longhorn filesystem volume is published OK, unpublished OK, and still in the VM spec |
| Controller.UnpublishUntilOK | pkg/csi/controller_server.go:843-876 | an attached volume unpublished until OK, in either form and whatever fails, is gone from its machine if and only if its claim is an RWX Longhorn filesystem; with calls answered OK comes at once for such a claim that is off, and with the second call for any other removed by a patch |
| Controller.AnyRun | pkg/csi/controller_server.go:450-876 | over every sequence of create, restore, delete, publish and unpublish calls on any machines, each failing anywhere: every NetworkFilesystem that stays has a claim that stays, at every moment; no claim is deleted before a restore of its name; and a volume that was on is on at the end unless some call deleted its claim or unpublished it while the index did not keep it |
| ClaimSizes.RoundUpIsLeast | pkg/utils/util.go:13-22 | in 64 bits, the result is the least positive multiple of 2 MiB covering the size if and only if the size is at most 2^63 - 2^21; beyond that it wraps to -2^63 |
| ClaimSizes.ScratchClaimSize | pkg/csi/controller_server.go:300-309 | a new claim starts at the least multiple of 2 MiB that covers the size asked for and 10 MiB |
| ClaimExpansion.RequestNeverShrinks | pkg/csi/controller_server.go:1890-1899 | under every interleaving of expansions, the requested size never decreases between any two moments |
| ClaimExpansion.ExpandVolume | pkg/csi/controller_server.go:1862-1918 | one step of the protocol for claims; the request never goes down; OK means the capacity covers the size reported, which is the size asked for; the node expands exactly when a pod uses the claim; with calls answered each reply has its exact condition: NotFound without a volume, InvalidArgument without a size, FailedPrecondition for a shrink, Internal for a claim written in between or in use without the setting, otherwise the size is written and the answer is OK exactly if the capacity came |
| ClaimExpansion.WaitForCapacity | pkg/csi/controller_server.go:2052-2079 | success means the capacity was reached; with polls answered, failure means the last one did not see it |
| ClaimExpansion.IsVolumeInUse | pkg/csi/controller_server.go:2250-2265 | true if and only if some pod mounts the claim |
| SnapshotIds.IdsLeadBack | pkg/csi/util.go:141-157 | an identifier leads back to its object if and only if a backup's namespace has no slash, or a local name does not read as a backup |
| SnapshotIds.ParseKeepsAll | pkg/csi/util.go:147-157 | formatting what was parsed gives the identifier again |
| SnapshotIds.ParseIff | pkg/csi/util.go:141-157 | an identifier is a backup's if and only if it is "backup:", a namespace without a slash, a slash and a name |
| SnapshotIds.NamesAreLocal | pkg/csi/util.go:148-156 | names without a colon are never taken for backups |
| SnapshotDeletion.DeleteSnapshot | pkg/csi/controller_server.go:1573-1617 | with calls answered the object the identifier leads to is gone or asked to go, and a local one is answered OK if and only if it is gone; OK again while it stays gone; no other object is asked to go, and none comes back |
| SnapshotDeletion.AnyRun | pkg/csi/controller_server.go:1566-1617 | over every sequence of creations and deletions, whatever fails, an object whose deletion was answered OK is not there alive until it is created again; without failures that holds of every deletion asked for, and one answered OK is OK every time it is repeated before that |
| SnapshotListing.ProcessHostSnapshots | pkg/csi/controller_server.go:1687-1708 | filter and conversion of the list, in order |
| SnapshotListing.ProcessHostBackups | pkg/csi/controller_server.go:1757-1792 | filter and conversion of the backups, in order |
| SnapshotListing.ListSnapshots | pkg/csi/controller_server.go:1620-1856 | a page is the selection of its items, at most MaxEntries of them, then all selected backups; every entry matches a requested source volume; negative MaxEntries is refused |
| SnapshotListing.ListAll | pkg/csi/controller_server.go:1795-1811 | following the tokens, the local entries of the pages are the selection of the whole list, in order and each once; the backups come once for every page |
| SnapshotListing.SelectedMatch | pkg/csi/controller_server.go:1643-1665 | selected local entries match the requested snapshot and source |
| SnapshotListing.SelectedIff | pkg/csi/controller_server.go:1643-1708 | an entry is in the answer if and only if it is that of a labelled snapshot with name and source that passes the filters given, so without filters each of them is listed |
| SnapshotListing.SelectedBackupsIff | pkg/csi/controller_server.go:1711-1792 | the same for backups, whose identifier names their namespace, and of which only the source is filtered |
| SnapshotListing.ListedIdsLeadBack | pkg/csi/util.go:141-157 | every identifier in an answer, sent back, leads to an object of the list with the source the entry names, local or backup as it was |
| SnapshotListing.BackupsIgnoreSnapshotId | pkg/csi/controller_server.go:1711-1735 | the snapshot filter leaves the backups as they are |
| Mounts.PublishBlock | pkg/csi/node_server.go:286-310 | an OK call leaves the path there with one layer more, a failed one adds none |
| Mounts.PublishMount | pkg/csi/node_server.go:312-338 | never more than one layer of its own; OK means the path is there and mounted |
| Mounts.Unpublish | pkg/csi/node_server.go:353-390 | the loop ends, every layer is taken off once, and OK means none is left |
| Mounts.PublishAllThenUnpublish | pkg/csi/node_server.go:286-390 | after any publishes, one OK unpublish leaves no layer and took off exactly as many as were there |
| SemVer.CompareIntIsNumeric | vendor/golang.org/x/mod/semver/semver.go:322-337 | comparing numerals by length and then as strings compares their values |
| SemVer.ShortForms | vendor/golang.org/x/mod/semver/semver.go:182-206 | vMAJOR stands for vMAJOR.0.0, vMAJOR.MINOR for vMAJOR.MINOR.0 |
| SemVer.FullForm | vendor/golang.org/x/mod/semver/semver.go:178-231 | vMAJOR.MINOR.PATCH with any pre-release parses into its parts |
| SemVer.ParseIffSpelled | vendor/golang.org/x/mod/semver/semver.go:178-320 | a string parses into these parts if and only if it is spelled from them: numbers in decimal, words of letters, digits and hyphens with dots between them after a hyphen and after a plus, or one of the short forms |
| VersionGate.ZeroIsLeast | vendor/golang.org/x/mod/semver/semver.go:339-399 | no pre-release comes before -0 |
| VersionGate.TargetParses | pkg/utils/version.go:17 | the string the gate compares with is a version if and only if neither bound is negative |
| VersionGate.GateIsMajorMinor | pkg/utils/version.go:12-19 | for every string: one that is no version passes; for a version, short forms and pre-releases included, comparing with vM.m.0-0 by semantic precedence is comparing (major, minor) with (M, m) as numbers; a negative bound passes everything |
| VersionGate.GateIsMonotone | pkg/utils/version.go:12-19 | a later version never closes the gate, starting from a version |
| VersionGate.NoVersionPasses | pkg/utils/version.go:13-15 | a string that is no version passes although a later one, v0, does not |

## Left out

- gRPC serving, flags, client construction, leader election and logging.
- The reading of the Ready conditions of node and VM: health is an input of `HandleNodeAndVMHealth`.
- Request validation, capability lists, storage-class and snapshot-class lookup, and the building of a claim from a snapshot's labels: single branches without a deep property.
- JSON encoding: patches are values, one constructor for each operation and path the driver uses.
- Wall-clock polling: a number of polls, each of which may fail.
- The legacy AddVolume and RemoveVolume calls on a VM are taken to have the effect of the declarative add and remove; KubeVirt's own handling of them is not part of this model.
- The lookup of the backup a restore comes from, which is one read before `CreateFromBackup`.
- Errors returned without a gRPC status count as Internal.
- Creating snapshots and their readiness checks: creations are steps of `SnapshotDeletion.AnyRun`, not driver code.
- NFS staging, formatting, resizing, device lookup and volume statistics: foreign commands and system calls.
- MAC and sysfs discovery of the instance.
- A missing storage class or snapshot status, which the code dereferences without a check: `Pvc.longhorn` is always known, and `SnapshotListing.Readable` asks for the status of converted snapshots.
- Exclusivity.PublishRWO: between the check and the reply the guest's attachments stay the same, since calls are taken one at a time.
- SharedVolumes.UnpublishRWXVolume: pods that start between the index lookup and the update are not seen.
