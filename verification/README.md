# Carina in Dafny

Carina gives Kubernetes pods storage on the disks of their own node. A claim passes through a
scheduler filter, a CSI controller that writes a LogicVolume object, a reconciler on the node that
makes a logical volume or a raw partition for it, and periodic jobs that scan disks, publish
capacity and clean up. This project models that chain and proves what holds over all of its runs.

| file | what it models |
|---|---|
| Units, Sorting | sizes, wrapping uint64 arithmetic, sums, `sort.Slice` |
| Lvm | volume groups, physical and logical volumes, and what the LVM commands do to them |
| VolumeManager | the try-lock, and the five operations of the volume manager, as functions and as a class |
| Workers | any number of concurrent callers of the volume manager, with deaths and an unlocked `pvresize` |
| Lifecycle | LogicVolume objects, the node's stale cache, reconciles, finalizers, the cleanup pass |
| LifecycleStory, LifecycleBase | what every run keeps, and what fair runs keep besides |
| LifecycleRuns, LifecyclePartitions, LifecycleWitness | what the cleanup pass can and cannot remove, and runs in which it removes something live |
| LifecycleOwned, LifecycleRemoval | runs without stripped finalizers, and the removal of one object |
| LifecycleSizes, LifecycleSizesWitness, LifecycleCsi | requested, real and reported sizes; repeated CSI creation |
| Scheduler, SchedulerFilter, PodFilter, TieBreaks | raw-disk placement, the pod's request map, what a node offers, the whole filter, and equal sizes |
| Capacity | published capacity, CSI rounding and the node's guard |
| Partition, PartitionOps, PartitionManager, PartitionPlan, PartitionNames | free spaces, partition tables, the number cache, partition names, and what the filter promises about them |
| PartitionWorkers | any number of concurrent callers of the partition manager, with deaths |
| Orphans, DeviceCheck, NodeSelect, DiskChoice, VolumeLookup | the orphan pass, disk discovery, the choice of nodes and disks, the lookup by volume ID |
| Parse, LvmRecords | the output of `vgs`, `pvs` and `lvs` |

Where the code does something else than it seems meant to do, the model does what the code does: a
lemma gives the input, and another one the exact condition under which the intended property holds.
The conditions found are these.

- The reserve guards of `CreateVolume` and `ResizeVolume` wrap. They are exact for whole-GiB sizes only
  (`CreateKeepsReserveIff`, `ResizeKeepsReserveIff`, `WrapBreaksReserve`), and a `pvresize` outside the lock
  defeats them (`GrowthInsideCreate`, `GrowthInsideResize`, `UnlockedGrowthBreaksReserve`).
- A finished creation that is repeated is judged by the space left, not by the volume that exists, and passes
  again when it asks for more than is free (`CreateAgainChangesNothing`). A failed lookup in `ResizeVolume` is
  reported as success (`ResizeSuccessIsReal`, `FailedLookupBreaksOrder`).
- Creation always adds the prefix `volume-` and deletion only when it is missing (`VolumeOps.DeleteUndoesCreate`,
  `PrefixedStays`). Only adding a disk lowers the case of the group's name (`RemoveUndoesAdd`).
- The partition pass lists the cluster, then scans the disk, then deletes by number. It can hit the partition
  of an object that is younger than the listing (`PartitionCleanupHitsLive`) or that got the number after the
  scan (`RenumberedPartitionIsHit`), and nothing else (`PartitionCleanupExact`).
- The volume pass can remove a live volume exactly when the object is younger than the listing
  (`VolumeCleanupExact`), which takes an object repaired from its PersistentVolume (`RepairThenCleanupHitsLive`,
  `NoRepairNoHarm`).
- An expansion is compared with the current size, not with the requested one: after a lost report a smaller
  request passes (`SmallerRequestBreaksOrder`). A repaired object has no status, so its volume is created again,
  and an existing one is reported with the size of the PersistentVolume (`RepairKeepsOrderIff`, `RepairBreaksOrder`).
- A repeated CSI creation compares name and size of the object it finds and answers with the node it selects
  itself (`AnswerNamesNodeIff`, `OtherNodeAnswered`, `BinpackAgainIff`).
- The request map keeps only the last plain claim of a group, and one exclusive class marks all later
  claims (`RecordedExact`), so pods are admitted that cannot be built (`TwoExclusiveAdmitted`,
  `ForgottenOverbooks`). A cache is counted on its volume's group and built on another (`CacheCountedElsewhere`).
- The raw filter is exact for exclusive claims and only sound for others (`ExclusiveExact`,
  `AcceptedPlacement`, `MixedIncomplete`); on equal sizes its verdict depends on the sort
  (`VerdictDetermined`, `MixedTieMatters`). It picks disks by substring (`OwnDisksIff`, `ForeignDiskAccepts`).
- The controller chooses disks again, claim by claim. It follows the filter under binpack and in the filter's
  order (`BinpackBuildsIff`), not under spreadout (`SpreadoutFails`), not in another order (`OtherOrderFails`) and
  not for an exclusive claim after plain ones (`CrowdedFails`).
- The byte sizes of several claims are added before they are rounded (`RoundingGap`, `FractionsOverbook`).
- When no free space is large enough, `CreatePartition` panics on a nil error (`PanicsIff`). An error of its
  first scan is dropped, and then a name is made twice (`CreateKeepsSingleIff`). A cached name on another disk is
  taken for success (`CreateSuccess`). A deletion that stops halfway leaves a dead number in the cache
  (`DeleteKeepsInvIff`). Updating an absent name caches number 0 (`UpdateKeepsCacheIff`). The name of a partition
  keeps only what follows the last dash of the object's name (`SameNameIff`). A name is looked for before the
  lock and not under it, so two objects that share one can get two partitions (`InterleavedSingle`,
  `SharedNameMadeTwice`).
- An exclusive request is admitted to a disk with one partition (`ExclusiveOnUsedDiskIff`), and to a disk whose
  exclusive volume the controller's cache has not seen yet (`ExclusiveMissedIff`).
- The lookup by volume ID returns the last object of the server's list (`RightObjectIff`).
- A loose PV goes to every group whose selector matches (`MergedDisjointIff`).
- CSI rounding may exceed the limit (`ConvertedIsLeast`).

## Model

| member | source | states |
|---|---|---|
| Locks.GlobalLocks.TryAcquire | utils/mutx/idlocker.go:39-47 | succeeds exactly when the id is free, and the id is taken afterwards |
| Locks.GlobalLocks.Release | utils/mutx/idlocker.go:50-54 | frees just this id |
| VolumeManager.LocalVolume.CreateVolume | pkg/devicemanager/volume/volume.go:48-80 | a busy lock changes nothing; otherwise the whole operation happens and the lock is given back; LVM stays sound and, for whole sizes, every group keeps 9 GiB |
| VolumeManager.LocalVolume.ResizeVolume | pkg/devicemanager/volume/volume.go:119-168 | the same for resizing |
| VolumeManager.LocalVolume.DeleteVolume | pkg/devicemanager/volume/volume.go:82-117 | the same for deleting |
| VolumeManager.LocalVolume.AddNewDiskToVg | pkg/devicemanager/volume/volume.go:230-276 | the same for adding a disk |
| VolumeManager.LocalVolume.RemoveDiskInVg | pkg/devicemanager/volume/volume.go:277-345 | the same for removing a disk |
| VolumeOps.ApplySound | pkg/devicemanager/volume/volume.go:48-345 | every operation, whatever it read before and on any outcome of its commands, keeps space accounted for and every PV in one group |
| VolumeOps.ApplyReserved | pkg/devicemanager/volume/volume.go:48-345 | every operation of whole size leaves at least 9 GiB free in every group, also when disks grew since it read, as long as its need is covered |
| VolumeOps.RemovalGuardExact | pkg/devicemanager/volume/volume.go:333-336 | while 9 GiB are free, the guard is the one that was meant: below 10 GiB the subtraction wraps and the sum wraps back |
| VolumeOps.CreateKeepsReserveIff | pkg/devicemanager/volume/volume.go:65-68 | for any size: creation keeps the reserve if and only if the size is at most the free space or LVM refuses its whole part |
| VolumeOps.ResizeKeepsReserveIff | pkg/devicemanager/volume/volume.go:139-168 | the same for resizing, with the growth in place of the size |
| VolumeOps.GrowthInsideCreate | runners/devicecheck.go:309-314 | with a pvresize between guard and command, a creation of whole size keeps the reserve if and only if it asked at most for what it read, or for more than there is, or leaves the reserve anyway |
| VolumeOps.GrowthInsideResize | runners/devicecheck.go:309-314 | the same for resizing |
| VolumeOps.NewGroupReservedIff | pkg/devicemanager/volume/volume.go:230-276 | a new group on a loose PV has the reserve if and only if the PV is that large |
| VolumeOps.WrapBreaksReserve | pkg/devicemanager/volume/volume.go:65-68 | 10.5 GiB asked of 10 GiB wraps past the guard and eats the reserve |
| VolumeOps.CreateAgainChangesNothing | pkg/devicemanager/volume/volume.go:65-79 | creating an existing name changes nothing, and reports success exactly when the size would leave the reserve or exceeds the free space, where the guard wraps |
| VolumeOps.ResizeSuccessIsReal | pkg/devicemanager/volume/volume.go:139-151 | success means the new size exactly when the volume was found |
| VolumeOps.DeleteUndoesCreate | pkg/devicemanager/volume/volume.go:48-117 | deleting what was created restores LVM if and only if the name does not begin with the prefix |
| VolumeOps.PrefixedStays | pkg/devicemanager/volume/volume.go:82-117 | for such a name deletion reports success, leaves the volume and removes the one named without the second prefix |
| VolumeOps.RemoveUndoesAdd | pkg/devicemanager/volume/volume.go:230-345 | removing a disk that was added restores LVM if and only if the group's name is in lower case |
| VolumeOps.NoDirectMove | pkg/devicemanager/volume/volume.go:230-276 | no single operation, whatever it read before, takes a PV from one group to another |
| Workers.LockedAlways | pkg/devicemanager/volume/volume.go:48-345 | over every interleaving of any number of callers, with deaths anywhere and pvresize at any moment: LVM is sound, there is one lock holder at most, and what it read is current but for disks that grew |
| Workers.QuietKeepsReserve | pkg/devicemanager/volume/volume.go:48-345 | over every interleaving of any number of creations, resizes, deletions and disk additions and removals, with deaths anywhere and disks that grow anywhere but between a call's reading and its acting: 9 GiB are free in every group, and every call acts on what it read |
| Workers.CallsKeepReserve | pkg/devicemanager/volume/volume.go:48-345 | so over every interleaving in which no disk grows, without further condition |
| Workers.ReserveAlwaysHolds | pkg/devicemanager/volume/volume.go:48-345 | with disks that grow at any moment, 9 GiB are free everywhere if each call that acts has its need covered |
| Workers.NotWithinBreaksReserve | runners/devicecheck.go:309-314 | a call whose need is not covered and whose commands work breaks the reserve |
| Workers.ActIsAtomic | pkg/devicemanager/volume/volume.go:50-54 | in every run LVM changes only by pvresize or by a whole operation of the one holder, which read LVM as it is but for disks that grew |
| Workers.PvNeverJumps | runners/devicecheck.go:144-155 | over every run, pvresize included, a PV is in one group at most and never goes straight to another |
| Workers.UnlockedGrowthBreaksReserve | runners/devicecheck.go:309-314 | a run in which such a pvresize breaks the reserve |
| Workers.UnlockedGrowthBreaksResize | runners/devicecheck.go:309-314 | a run in which it does so inside a resize |
| LifecycleStory.StepKeepsAlways | controllers/logicvolume_controller.go:60-95 | every step of every run keeps: objects only move forward within one incarnation, the lists of the pass are true of the entry they were read from, partition numbers are distinct |
| LifecycleBase.StepKeepsBase | controllers/logicvolume_controller.go:60-95 | every step of a fair run, repairs and stale reads included, keeps the node working on the living incarnation of each name, at the point that the object it read leads to |
| LifecycleRuns.VolumeCleanupExact | runners/troubleshoot.go:77-176 | in every reachable state of any run, the volume cleanup can remove a live volume if and only if one on its list is live in an incarnation younger than the listing |
| LifecycleRuns.CleanupSparesLiveVolumes | runners/troubleshoot.go:77-176 | in every fair run, repairs included, a pass that lists the cluster when the node has seen the present objects of its volumes removes no live volume until it ends |
| LifecycleRuns.NoRepairNoHarm | runners/troubleshoot.go:77-176 | in every fair run without repairs no pass ever removes a live volume |
| LifecycleRuns.PartitionCleanupExact | runners/troubleshoot.go:186-251 | in every reachable state of any run, the partition cleanup can hit a live partition if and only if a number it found belongs to an object younger than the listing or to another object than at the scan |
| LifecyclePartitions.CleanupSparesLivePartitions | runners/troubleshoot.go:186-251 | in every fair run, if nothing on the disk was younger than the listing when it was scanned, and no number of the scan is given to another partition since, the pass hits no live partition |
| LifecycleWitness.PartitionCleanupHitsLive | runners/troubleshoot.go:200-245 | a run in which the first happens, without any deletion |
| LifecycleWitness.RenumberedPartitionIsHit | runners/troubleshoot.go:200-245 | a run in which the second happens to an object that the pass knows |
| LifecycleWitness.RepairThenCleanupHitsLive | runners/troubleshoot.go:119-176 | a fair run in which a reported object is stripped, deleted and repaired, and its volume is about to be removed while it is live |
| LifecycleOwned.OwnedAlways | controllers/logicvolume_controller.go:108-151 | over every fair run without stripping: every object has its finalizer and everything on disk its object |
| LifecycleOwned.NoOrphansEver | controllers/logicvolume_controller.go:60-151 | over every fair run without stripping nothing on disk is ever without a live LogicVolume |
| LifecycleOwned.VanishesLast | controllers/logicvolume_controller.go:108-151 | over every fair run without stripping an object vanishes only when its volume or partition is gone |
| LifecycleRemoval.StaysClear | controllers/logicvolume_controller.go:108-151 | in every fair run, stripping and repairs included, what a removal took off the disk stays off for the rest of that incarnation |
| LifecycleRemoval.RemovalConverges | controllers/logicvolume_controller.go:108-151 | in every fair run without stripping, whatever interleaves and however often the removal is cut off: from the deletion on the object is there with its finalizer, or it is gone and everything of it is off the disk |
| LifecycleRemoval.OthersUntouched | controllers/logicvolume_controller.go:108-151 | the steps of one name's removal leave the objects, the work and the disks of every other name alone |
| LifecycleRemoval.RemovalFinishes | controllers/logicvolume_controller.go:108-151 | from every state of every fair run some fair run finishes the removal, with just the object and what it stood for gone |
| LifecycleSizes.SizesAlways | controllers/logicvolume_controller.go:271-353 | over every orderly fair run, sizes in the history, on disk and in pending reports fit together |
| LifecycleSizes.OrderedAlways | controllers/logicvolume_controller.go:271-353 | CurrentSize <= size of the volume <= Spec.Size in every state of such a run |
| LifecycleSizes.OrderedWithoutRepairs | controllers/logicvolume_controller.go:271-353 | without repairs, growing requests and working lookups are enough for that |
| LifecycleSizes.CurrentNeverShrinks | controllers/logicvolume_controller.go:320-352 | CurrentSize and Spec.Size never decrease while the object lives |
| LifecycleSizes.ExpandKeepsOrderIff | pkg/csidriver/driver/k8s/logicvolume_service.go:385-415 | writing a new Spec.Size keeps the order exactly when it covers the volume there is |
| LifecycleSizes.ResizeKeepsOrderIff | pkg/devicemanager/volume/volume.go:139-143 | reporting a resize keeps the order exactly when the volume was found or had the size |
| LifecycleSizes.RepairKeepsOrderIff | runners/troubleshoot.go:119-176 | right after a repair the order holds; once the volume is made or found and reported, it holds exactly when the volume was absent or had the size of the PersistentVolume |
| LifecycleSizesWitness.SmallerRequestBreaksOrder | pkg/csidriver/driver/controller.go:375-415 | a run with a volume above its Spec.Size: 9 GiB granted, the report lost, then 7 asked, which is above the 5 that are read |
| LifecycleSizesWitness.FailedLookupBreaksOrder | pkg/devicemanager/volume/volume.go:139-143 | a run that reports more than the volume has |
| LifecycleSizesWitness.RepairBreaksOrder | runners/troubleshoot.go:119-176 | a run in which an object is repaired, its creation finds the larger volume, and the smaller size is reported |
| LifecycleCsi.CreateIsIdempotent | pkg/csidriver/driver/k8s/logicvolume_service.go:188-208 | at every later point of an orderly run, whatever entry the call finds the object in: it changes nothing, the original size is accepted exactly while no larger one is visible, another size only if it is that larger one, and the volume has at least the original size |
| LifecycleSizesWitness.ExpandedIsRefused | api/v1/logicvolume_types.go:72-80 | after an expansion the creation that made the object is refused when it is repeated |
| LifecycleCsi.AnswerNamesNodeIff | pkg/csidriver/driver/controller.go:120-210 | in every run the object stays on the node of the first call, so a repeated call answers with the object's node if and only if it selects that node again |
| LifecycleSizesWitness.OtherNodeAnswered | api/v1/logicvolume_types.go:72-80 | a state in which a repeated call is accepted and answers with another node |
| LifecycleCsi.VolumeStays | controllers/logicvolume_controller.go:153-270 | over any stretch of any run without a resize, the node's volume is the same, however often it is made again |
| RawFilter.MinimumValueMinus | scheduler/schedulerplugin/localstorage/storage-plugins.go:350-372 | takes a smallest sufficient capacity to its residual, whatever the order, and fails exactly when none suffices |
| RawFilter.FilterRawGroup | scheduler/schedulerplugin/localstorage/storage-plugins.go:116-134 | accepts exactly when all requests in turn find a disk |
| RawFilter.Exchange | scheduler/schedulerplugin/localstorage/storage-plugins.go:350-372 | giving the first claim the smallest sufficient disk loses no fit |
| RawFilter.ExclusiveExact | scheduler/schedulerplugin/localstorage/storage-plugins.go:116-134 | for exclusive claims, in any order, acceptance is the existence of an injective assignment to large enough disks |
| RawFilter.AcceptedPlacement | scheduler/schedulerplugin/localstorage/storage-plugins.go:116-134 | any accepted mix has an assignment within every disk's capacity, with nothing positive after an exclusive claim on its disk |
| RawFilter.ExclusiveAlone | scheduler/schedulerplugin/localstorage/storage-plugins.go:365-366 | with the exclusive claims first, each of them has its disk alone |
| RawFilter.TieOrderDecides | scheduler/schedulerplugin/localstorage/storage-plugins.go:117-134 | for one disk that holds both, the order of an exclusive and a plain claim decides the verdict |
| RawFilter.MixedIncomplete | scheduler/schedulerplugin/localstorage/storage-plugins.go:116-134 | plain claims 4, 3, 3, 3 fit on disks 7 and 6 and are rejected |
| PvcRequests.GetPvcRequestMap | scheduler/schedulerplugin/localstorage/storage-plugins.go:218-302 | fails exactly on a missing object, a bad class or two bound nodes; otherwise gives the node, whether a class names a raw group, and for every group, listed exactly when asked, the list the appends leave |
| PvcRequests.AddRequests | scheduler/schedulerplugin/localstorage/storage-plugins.go:275-298 | a claim without a cache replaces the group's list |
| PvcRequests.RecordedExact | scheduler/schedulerplugin/localstorage/storage-plugins.go:218-302 | a group's list is what the pod asks of it if and only if no plain claim follows another claim of the group and none follows an exclusive one |
| PvcRequests.CacheCountedElsewhere | scheduler/schedulerplugin/localstorage/storage-plugins.go:275-287 | a cache that is built on another group is counted on its volume's group and not there |
| PvcRequests.ExclusiveListIsShort | scheduler/schedulerplugin/localstorage/storage-plugins.go:275-298 | a list of nothing but exclusive requests has one request at most |
| SchedulerFilter.GetAllocatableMap | scheduler/schedulerplugin/localstorage/storage-plugins.go:304-346 | fails exactly when the node's resources, or for a raw pod the exclusive volumes, cannot be read or nothing is offered; otherwise lists the entries at increasing positions, a position being among them if and only if its entry is ours and is not, for a raw pod, a raw disk an exclusive volume has |
| SchedulerFilter.CheckGroup | scheduler/schedulerplugin/localstorage/storage-plugins.go:113-145 | a raw group passes exactly when its sorted requests in turn find a disk, a volume group exactly when the rounded sum is allocatable |
| SchedulerFilter.OwnDisksIff | scheduler/schedulerplugin/localstorage/storage-plugins.go:121-127 | the disks counted for a group are its own if and only if no offered entry of another group contains its name |
| SchedulerFilter.ForeignDiskAccepts | scheduler/schedulerplugin/localstorage/storage-plugins.go:121-127 | any such entry that is large enough makes a claim pass that the group's own disks reject |
| SchedulerFilter.ForeignExample | scheduler/schedulerplugin/localstorage/storage-plugins.go:121-127 | a node without any disk of the raw group ssd passes by its volume group carina-vg-ssd |
| PodFilter.Filter | scheduler/schedulerplugin/localstorage/storage-plugins.go:93-150 | from the pod's volumes to the verdict: an error exactly for a pod the request map refuses; success means the right node and every asked group passes with its recorded list in a sorted order; otherwise the node is wrong, cannot be read, offers nothing, or some asked group fails |
| PodFilter.VerdictDetermined | scheduler/schedulerplugin/localstorage/storage-plugins.go:114-119 | no pod is admitted under one sort and refused under another, unless the list of a raw group has an exclusive and a plain request of one size |
| TieBreaks.MixedTieMatters | scheduler/schedulerplugin/localstorage/storage-plugins.go:114-134 | for every list of whole gibibytes with such a pair there are disks for which one order passes and another does not |
| PodFilter.AdmittedIsBuildable | scheduler/schedulerplugin/localstorage/storage-plugins.go:93-150 | an admitted pod whose list for a raw group is faithful gets a layout of all it needs there, and all the partitions are created |
| PodFilter.AdmittedIsProvisioned | pkg/csidriver/driver/k8s/node_service.go:117-205 | under binpack, with the claims in the filter's order, the exclusive ones first, and the free space of each disk in one piece, the controller finds a disk for every claim of an admitted pod and every partition is created |
| DiskChoice.ChoiceIsPick | pkg/csidriver/driver/k8s/node_service.go:117-205 | SelectDeviceGroup chooses a disk that suits and has the least or the most left, and none exactly when none suits |
| DiskChoice.BinpackBuildsIff | pkg/csidriver/driver/k8s/node_service.go:117-205 | under binpack and in that order the controller finds a disk for every claim, whatever ties it breaks, if and only if the filter accepts |
| DiskChoice.AcceptedIsProvisioned | pkg/csidriver/driver/k8s/node_service.go:117-205 | on real disks with their free space in one piece, with numbers published anew after each partition, what the filter accepts is provisioned |
| DiskChoice.SpreadoutFails | pkg/csidriver/driver/k8s/node_service.go:190-202 | under spreadout, in the filter's order, claims of 4, 3 and 3 that pass for disks of 6 and 4 do not all find a disk |
| DiskChoice.OtherOrderFails | pkg/csidriver/driver/k8s/node_service.go:190-202 | under binpack they do not when they come as 3, 3 and 4 |
| DiskChoice.CrowdedFails | pkg/csidriver/driver/k8s/node_service.go:157-167 | an exclusive claim that the filter puts after two plain ones on a disk is refused there |
| PodFilter.LvmVerdictRight | scheduler/schedulerplugin/localstorage/storage-plugins.go:135-145 | when no claim of a volume group is forgotten, its whole-GiB volumes pass if and only if they can all be created, except when exactly 10 GiB are free |
| PodFilter.AdmittedIsMade | scheduler/schedulerplugin/localstorage/storage-plugins.go:93-150 | an admitted pod gets all its volumes of such a group |
| PodFilter.TwoExclusiveAdmitted | scheduler/schedulerplugin/localstorage/storage-plugins.go:290-298 | two exclusive claims of one raw group are admitted to a node with a single disk |
| PodFilter.ForgottenOverbooks | scheduler/schedulerplugin/localstorage/storage-plugins.go:290-298 | whenever a claim is forgotten, a node with room for the recorded ones alone passes and some volume cannot be created |
| Capacity.PublishedAgreesIff | runners/nodestorageresource.go:205-213 | for all sizes: published suffices exactly when the bytes are there and the guard passes, except at exactly 10 GiB free |
| Capacity.ExpandAgreesIff | pkg/csidriver/driver/controller.go:401-408 | the same for the controller's test before an expansion and the guard of ResizeVolume |
| Capacity.ConvertedIsLeast | pkg/csidriver/driver/controller.go:452-470 | the least positive number of gibibytes that holds the request, within the limit exactly when the rounded-down limit holds it |
| Capacity.FilterLvmGroup | scheduler/schedulerplugin/localstorage/storage-plugins.go:135-145 | compares the rounded sum of the bytes |
| Capacity.RoundingGap | scheduler/schedulerplugin/localstorage/storage-plugins.go:135-140 | the sum of n rounded sizes exceeds the rounded sum by at most n - 1 |
| Capacity.NoGapWhenWhole | scheduler/schedulerplugin/localstorage/storage-plugins.go:135-140 | and not at all for whole sizes |
| Capacity.RoundingGapReached | scheduler/schedulerplugin/localstorage/storage-plugins.go:135-140 | the bound is reached for every n up to 2^30 |
| Capacity.AllMadeIff | pkg/devicemanager/volume/volume.go:65-79 | volumes of whole sizes are all created, in any order, if and only if their sum leaves the reserve |
| Capacity.MadeIffRoundedFit | pkg/devicemanager/volume/volume.go:65-79 | a pod's volumes are all created if and only if their rounded sizes add up to at most what is published |
| Capacity.FractionsOverbook | scheduler/schedulerplugin/localstorage/storage-plugins.go:135-145 | claims of one byte pass the filter and do not all fit |
| Capacity.AcceptedIsMade | scheduler/schedulerplugin/localstorage/storage-plugins.go:135-145 | whole claims that pass against a fresh number are all created |
| Disks.FreeSpacesExact | pkg/devicemanager/partition/partition.go:165-169 | the free spaces are exactly the maximal gaps of at least the given size |
| Disks.PublishedExact | runners/nodestorageresource.go:280-299 | the published number of a raw disk counts the gibibytes one partition can get |
| PartitionOps.CreateOnMakes | pkg/devicemanager/partition/partition.go:165-195 | a new partition has a free number in 1..127, lies in free space, has size or size + 1 bytes, and nothing else changes |
| PartitionOps.CreateKeepsInv | pkg/devicemanager/partition/partition.go:141-205 | every creation, its first scan working or not, keeps tables disjoint, names on their disks and the cache live |
| PartitionOps.CreateKeepsSingleIff | pkg/devicemanager/partition/partition.go:141-205 | creation keeps names single if and only if it does not follow a failed first scan of a disk that has the name |
| PartitionOps.WalkRemoves | pkg/devicemanager/partition/partition.go:310-321 | a walk of the table that ends removes exactly the partitions of the name, in any order |
| PartitionOps.DeleteKeepsInvIff | pkg/devicemanager/partition/partition.go:285-326 | deletion, in any order, keeps them if and only if it does not stop after deleting the number cached for the name |
| PartitionOps.DeleteByNumberKeepsInv | pkg/devicemanager/partition/partition.go:327-346 | deletion by number keeps them, although it drops cache entries of other disks |
| PartitionOps.InvAlways | pkg/devicemanager/partition/partition.go:141-346 | over every run from an empty cache, whatever scans fail, they hold |
| PartitionOps.SingleAlways | pkg/devicemanager/partition/partition.go:141-346 | over every run in which the first scans work, names are single as well and no deletion stops halfway |
| PartitionOps.SuccessIsReal | pkg/devicemanager/partition/partition.go:148-150 | over every run, also with failed scans, a creation that reports success leaves the partition on its disk |
| PartitionOps.CreateSuccess | pkg/devicemanager/partition/partition.go:141-150 | in any state, exactly when success is real |
| PartitionOps.DeleteUndoesCreate | pkg/devicemanager/partition/partition.go:141-326 | deleting a new name restores the table and the cache, in whatever order the table is walked |
| PartitionOps.UpdateKeepsCacheIff | pkg/devicemanager/partition/partition.go:279-280 | an update that reaches the cache keeps it live exactly when the name is on the disk |
| PartitionWorkers.InterleavedInv | pkg/devicemanager/partition/partition.go:141-346 | over every interleaving of any number of callers, with deaths anywhere, tables stay disjoint, names on their disks and the cache live |
| PartitionWorkers.InterleavedSingle | pkg/devicemanager/partition/partition.go:141-205 | over every interleaving in which no two creations of one name are under way together and first scans work, names stay single |
| PartitionWorkers.TwinWasMade | pkg/devicemanager/partition/partition.go:141-155 | a name that a scan did not find and that is on the disk later was made by a call in between |
| PartitionWorkers.SharedNameMadeTwice | pkg/devicemanager/partition/partition.go:141-155 | for two objects that share a partition name there is a run, every scan working, that makes it twice |
| PartitionManager.LocalPartition.CreatePartition | pkg/devicemanager/partition/partition.go:141-205 | returns at once for a known name; otherwise Busy or the whole operation, and the lock is given back |
| PartitionManager.LocalPartition.DeletePartition | pkg/devicemanager/partition/partition.go:285-326 | Busy or the whole operation, for any order of the table and any partitions that cannot be deleted |
| PartitionManager.LocalPartition.DeletePartitionByPartNumber | pkg/devicemanager/partition/partition.go:327-346 | Busy or the whole operation |
| PartitionManager.FreeNumber | pkg/devicemanager/partition/partition.go:170-182 | the loop finds the lowest free number from 1 to 127, or 0 |
| PartitionManager.Walk | pkg/devicemanager/partition/partition.go:310-321 | in any order of the table, exactly the partitions of the name before the first one of it that cannot be deleted are gone, and the loop ends if and only if there is no such one |
| PartitionPlan.PanicsIff | pkg/devicemanager/partition/partition.go:165-169 | creation panics exactly when no gap is large enough |
| PartitionPlan.CreateLeavesRoom | pkg/devicemanager/partition/partition.go:184-195 | after n of a gibibytes are taken, a - n are left in one gap, also in the size + 1 case |
| PartitionPlan.ResidualIsLowerBound | scheduler/schedulerplugin/localstorage/storage-plugins.go:365-369 | the filter's residual is at most what the node publishes after the real creation |
| PartitionPlan.OnePieceExact | pkg/devicemanager/partition/partition.go:165-195 | on a disk whose free space is in one piece, a creation leaves it so and lowers the published number by just the claim |
| PartitionPlan.WithinPublished | runners/nodestorageresource.go:280-299 | partitions that sum up to at most the published number are all created, in any order |
| PartitionPlan.AcceptedIsBuildable | scheduler/schedulerplugin/localstorage/storage-plugins.go:116-134 | what the raw filter accepts can be laid out and created on every disk |
| PartitionNames.SameNameIff | utils/utils.go:155-158 | two objects share a partition name if and only if they share what follows the last dash |
| PartitionNames.NamesCollide | utils/utils.go:155-158 | objects that differ only before the last dash share one |
| Orphans.CleanupOrphanVolume | runners/troubleshoot.go:104-176 | exactly the listed orphans whose deletion works are gone, everything else is as before, and objects are asked for exactly for those with a persistent volume |
| Orphans.LeftIsOwned | runners/troubleshoot.go:104-176 | after a full pass the volume- volumes left are those with an object or a persistent volume |
| DeviceCheck.DiscoverDisk | runners/devicecheck.go:208-286 | for any selector order, exactly the wanted empty disks are chosen, each once, for the first selector that wants it |
| DeviceCheck.GroupsDisjoint | runners/devicecheck.go:208-286 | no disk is in two groups and every wanted disk is in one |
| DeviceCheck.DiscoverPv | runners/devicecheck.go:289-339 | fails exactly when some expression does not compile; otherwise a loose PV is in every group whose selector matches it, and in no other |
| DeviceCheck.MergedDisjointIff | runners/devicecheck.go:123-132 | the merged groups are disjoint if and only if no selector claims a loose PV that another claims or takes first as a disk |
| NodeSelect.GetLvExclusivityDisks | pkg/csidriver/driver/k8s/node_service.go:74-86 | fails exactly when the objects cannot be read; otherwise lists exactly the groups of exclusive objects of the node, among those read |
| NodeSelect.Preselect | pkg/csidriver/driver/k8s/node_service.go:213-283 | the preselected pairs are exactly those that pass every filter |
| NodeSelect.SelectNode | pkg/csidriver/driver/k8s/node_service.go:207-310 | a candidate with least or most allocatable by policy; not-found exactly when there is none |
| NodeSelect.SelectDeviceGroup | pkg/csidriver/driver/k8s/node_service.go:117-205 | an LVM claim with a group keeps it; any other gets a group of the node with least or most allocatable by policy, nothing exactly when none suits, and an error when the node or the exclusive volumes cannot be read |
| NodeSelect.BinpackAgainIff | pkg/csidriver/driver/k8s/node_service.go:207-310 | asked again after the first choice was granted, binpack chooses the same group if and only if what is left of it still suffices |
| NodeSelect.SpreadoutMovesOn | pkg/csidriver/driver/k8s/node_service.go:207-310 | spreadout leaves it as soon as another candidate has more than what is left |
| NodeSelect.NeverExclusiveTwice | pkg/csidriver/driver/k8s/node_service.go:74-86 | a raw choice is never a disk of an exclusive object that the controller reads |
| NodeSelect.ExclusiveMissedIff | pkg/csidriver/driver/k8s/logicvolume_service.go:98-132 | a disk of an exclusive object at the server is offered again exactly when the cache has objects of the node but not one that is exclusive on the disk |
| NodeSelect.ExclusiveOnUsedDiskIff | pkg/csidriver/driver/k8s/node_service.go:258-269 | an exclusive request gets a disk in use exactly when the disk has one partition |
| VolumeLookup.GetByVolumeId | pkg/csidriver/driver/k8s/logicvolume_service.go:62-96 | an error exactly when a list that is needed fails; one cached object is the answer and several are an error; without a cached one the server's list decides, and the answer is its last object |
| VolumeLookup.RightObjectIff | pkg/csidriver/driver/k8s/logicvolume_service.go:62-96 | that object has the ID if and only if the object with the ID is the last one |
| LvmOutput.Parse | pkg/devicemanager/lvmd/parse.go:28-171 | the nested loops compute the parsing function, the panic included |
| LvmOutput.RoundTrip | pkg/devicemanager/lvmd/parse.go:28-171 | printing and parsing any records gives back those that are kept |
| LvmOutput.ParsePanicsIff | pkg/devicemanager/lvmd/parse.go:45-61 | parsing panics exactly on a piece without an equals sign |
| LvmRecords.VgsRoundTrip | pkg/devicemanager/lvmd/parse.go:28-69 | volume groups survive printing and parsing |
| LvmRecords.PvsRoundTrip | pkg/devicemanager/lvmd/parse.go:133-171 | physical volumes survive printing and parsing |
| LvmRecords.LvsRoundTrip | pkg/devicemanager/lvmd/parse.go:71-131 | logical volumes survive exactly when named volume- or thin- |

## Left out

- Workers.QuietKeepsReserve: assumes whole-GiB sizes, devices and loose PVs of at least 9 GiB and no thin pools; NewGroupReservedIff, CreateKeepsReserveIff and ResizeKeepsReserveIff say what happens otherwise. A call reads LVM at one moment: RemoveDiskInVg reads the PV before the group, but the goroutine that calls it (runners/devicecheck.go:186) is the one that runs pvresize (runners/devicecheck.go:310), so no disk grows in between.
- Workers.ReserveAlwaysHolds: the condition that a call's need is covered is met by every call in which no disk grows, which is QuietKeepsReserve; UnlockedGrowthBreaksReserve shows that it is needed otherwise.
- Workers.NotWithinBreaksReserve: a creation of a name that is already there is not covered, since it changes nothing.
- LifecycleBase.StepKeepsBase: assumes fair runs: a name is created again only when nothing of it is left on the node, and repaired only when the node has seen the old object go. Names of volumes are generated and not used again; the exact results on the cleanup need no such assumption.
- LifecycleRuns.CleanupSparesLiveVolumes: assumes that the node has caught up when it lists the cluster; RepairThenCleanupHitsLive shows that this is needed.
- LifecyclePartitions.CleanupSparesLivePartitions: its two conditions are those of the two runs PartitionCleanupHitsLive and RenumberedPartitionIsHit. Partitions are keyed by object, so objects with different last segments are assumed; SharedNameMadeTwice is about the others. One disk is modelled, since the pass works disk by disk.
- LifecycleSizes.OrderedAlways: assumes orderly runs: growing requests, working lookups, no removal of a live volume, repairs whose volume is absent or has the size of the PersistentVolume; SmallerRequestBreaksOrder, FailedLookupBreaksOrder, RepairThenCleanupHitsLive and RepairBreaksOrder show that all four are needed.
- PartitionOps.InvAlways: assumes that each name is used with one disk and that no deletion stops after deleting the cached number; CreateSuccess and DeleteKeepsInvIff say what happens otherwise. Resizing a partition is not one of its steps.
- PartitionWorkers.InterleavedInv: what a call does under the lock is one step, since only the two tests of a creation are made outside it; the same two assumptions as above.
- PodFilter.AdmittedIsBuildable: assumes that the published numbers are current and that partition numbers do not run out; a cache counts with the bytes the filter computes, which are never fewer than what the controller asks for.
- PodFilter.LvmVerdictRight: covers whole-GiB requests; for others RoundingGap bounds the error.
- TieBreaks.MixedTieMatters: covers whole-GiB requests; with others a smaller request may need as many gibibytes as the pair.
- PartitionPlan.AcceptedIsBuildable: assumes that partition numbers do not run out.
- NodeSelect.BinpackAgainIff: for LVM claims; a raw claim changes the exclusive disks as well.
- Orphans.CleanupOrphanVolume: nothing else holds the volume lock during the pass; the interleaved pass is in the Lifecycle modules.
- PartitionOps.UpdateKeepsCacheIff: covers the cache only; the `parted`, `umount` and `mount` commands of UpdatePartition are not modelled, and the reconciler of the Lifecycle modules does not resize raw partitions.
- LvmRecords.LvsRoundTrip: `data_percent` stays text, since floating-point parsing is not modelled.
- Disks.FreeSpacesExact: the disk library aligns the usable area; here the area is given.
- Objects without a current size, written by old versions: ControllerExpandVolume fills it in before it compares, which is not a step here.
- VolumeLookup.GetByVolumeId: the loop variable is shared by all turns, as before Go 1.22.
- DeviceCheck.DiscoverPv: the device of a PV is always found under its name, and the list of PVs can be read.
- Regular expressions, host names, clocks, retries and the outcome of every external command are parameters.
- Thin pools, bcache volumes on the node, cache volumes of an expansion and host-path volumes: they drive tools whose state the repository does not show.
- CSI node publishing, mounting, device nodes and filesystem resizing: system calls.
- Score and `GetTotalCapacity`, a ranking and a sum of the same numbers; `SelectMultiVolumeNode`, which chooses one node for two LVM groups.
- The rebuild of volumes on another node: only its finalizer stripping is a step here.
- Cgroup limits, metrics, webhook, certificates, configuration loading and deployment files: wiring.
