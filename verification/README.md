# Ghaf GIVC: a model of image updates, the admin registry, the socket proxy and policy distribution

Dafny models of four parts of the system, with proofs of what they promise.

**Image updates** (`crates/ota-update/src/image`). Names of logical volumes and kernel images are parsed and
printed (`Slots`, `Uki`), grouped (`Groups`), and looked up and selected from (`Runtime`); install and remove
become lists of commands (`Plan`), also spelled out as text (`Spelled`). `Disk` gives the commands a meaning on a disk: one volume group, its volumes with
contents, the kernel images on the boot partition, the ids of type 1 boot entries. A command may succeed, fail or be
cut off half-way, and power may be lost at any time: volumes that are not flushed then hold anything, images that are
not synced may be gone or damaged. `Inventory` says what a scan of such a disk finds. On top of that come the frame
of every plan (`Frame`, `Install`), crash safety (`CrashSafety`), the commit point and the result of an install
(`Commit`, `Outcome`), trying again (`Retry`), removal (`Remove`), whole runs of a machine with boot counting
(`Backing`, `Runs`, `Legacy`), and that updates do succeed (`Progress`, `Updating`). Where they fall short has modules
of its own: dashes in names (`Dashes`, `Misled`, `Twins`), images that break off (`Truncated`), images under other names
(`Unscannable`), and what can be saved of an install that stopped (`Recovery`, `Halves`).

**Registry** (`crates/admin`). `Naming` and `Registry` model entries by name, the cascade of a deregistration, and
instance names, in a class whose methods change the entries in place and append to what was published. `Watch` is
the concurrent system: writers that hold the lock while they still have events to send, subscribers that make their
receiver before they take their snapshot, and a channel that keeps the last sixteen events and tells a receiver that
wants an older one so.

**Socket proxy** (`modules/pkgs/socketproxy`). `Proxy` is a step system of two sides with two goroutines each,
including write failures, failed sends and receives, and a cancelled context that is looked at only between two
blocking calls. `Conversations` builds runs of it for all inputs; `Unwinding` and `Losses` say exactly for which
applications it comes to an end and loses nothing.

**Policies** (`crates/policyadmin`, `modules/pkgs/policyadmin`). `Delivery` models queues, workers and the one task
that pushes; `Upload` the cutting up and putting together of a file; `PolicyStore` the hash-guarded installation with
every file operation allowed to fail; `PolicyInstall` joins the two.

What is outside is passed in: the listing order of `lvs` and `bootctl`, the files to install and whether reading them
breaks off, the outcome of reads and writes, the hash function, and the scheduling of every concurrent part.

## What the proofs found

- Dashes are not escaped in device paths, and there are three cases (`Misled.FullRunCases`, `Misled.CompletesIff`). If
  the paths of the selected slot lead to it, a full run writes both volumes. With a dash in the way no install
  completes (`Dashes.DashedNeverCompletes`), unless the selected slot has a twin, such as `a-b` for `a--b`: then the
  images go to the twin, and the version gets its kernel image with volumes that were never written
  (`Misled.MisledInstall`, and a machine on which it happens in `Twins.MisledMachine`). Without a twin of the selected
  slot the commit order holds (`Outcome.CommitOrdering`).
- A `zstdcat` that breaks off is not noticed, because the exit status of a pipeline is that of `dd`. Every full
  install with a compressed image is also one in which the image broke off (`Truncated.BreakOffUnnoticed`); a volume
  holds its whole image iff the unread rest already stood there (`Truncated.WholeImageIff`).
- An install that stopped after its first rename cannot be tried again as a fresh one (`Retry.RetryFreshIff`). With
  one volume renamed, a further install collides (`Retry.RetryCollides`). With both, the version counts as installed
  and its kernel image is never written (`Retry.RetryPlansNothing`). Removing the version first helps while
  an identifier is free (`Recovery.RemovingHelps`), but after one rename, which every install comes by
  (`Recovery.HalfWayReached`), it parts the pair for good (`Halves.HalvesPartForGood`).
- If an image of the version is there under another name, such as one with a boot counter and no root volume, a
  finished install leaves a disk that no later command can scan (`Retry.RescanIff`,
  `Unscannable.CountedImageEndsScans`).
- A managed registry entry can outlive its manager if the two disagree on their virtual machine
  (`Registry.ManagerLostIff`), as with an agent that names another machine as its parent (`Registry.StrayAgentLost`).
- A watching client has to be cut off when it falls behind: going on would leave it wrong for good
  (`Watch.GapIfItWentOn`).
- A proxy side whose write fails may leave without the end frame, and its peer then hangs in a read
  (`Unwinding.HangsAfterWriteFailure`). Both hang where an application only shut down its receiving half
  (`Unwinding.HangsAtDeafApplication`). The proxy is certain to end iff both applications close, or one does and the
  other has nothing to say and hears what there is (`Unwinding.AlwaysUnwindsIff`).
- When the serving side has left after a failed write, a failed send makes the calling side drop frames that are waiting
  for a socket that works (`Losses.LostAfterWriteFailure`); for which applications bytes can be lost at all is exact
  (`Losses.LosslessIff`).
- A read error in the middle of a policy file ends the upload like the end of the file, and the receiver takes the
  beginning for the whole (`Upload.RoundTrip`). If its permissions cannot be set, the temporary file is left behind
  (`Upload.StreamPolicy`).
- A destination damaged by a failed copy is not repaired by sending the recorded policy again
  (`PolicyStore.DamageStays`).
- In `remove`, the branch that reuses the group's own identifier cannot be reached (`Remove.OwnIdUnreachable`).

## Model

| member | source | states |
|---|---|---|
| Slots.DecodeThenPrint | crates/ota-update/src/image/slot.rs:53-125 | every volume name that parses is printed back as it was, so no information of a managed name is lost |
| Slots.PrintThenDecode | crates/ota-update/src/image/slot.rs:53-125 | parse after print is the identity exactly for statuses whose revision, hash or identifier has no underscore and whose revision is not `empty` |
| Slots.NameInjective | crates/ota-update/src/image/slot.rs:53-81 | two volume names of the same kind and status are the same name |
| Slots.FromVolumes | crates/ota-update/src/image/slot.rs:87-107 | the loop yields the parsed slots and the unparsed volumes, each in listing order |
| Slots.FromVolumesConserves | crates/ota-update/src/image/slot.rs:87-107 | no volume is lost or duplicated between the two results |
| Spelled.SlotByName | crates/ota-update/src/image/slot.rs:53-125 | a volume name tells its kind, version or identifier, whether it is empty and whether it is legacy, exactly by its text |
| Uki.PrintThenParse | crates/ota-update/src/image/uki.rs:48-116 | parse after print is the identity exactly for readable entries, for all u32 counters |
| Uki.ParseThenPrint | crates/ota-update/src/image/uki.rs:79-116 | whatever file name is accepted, parse after print after parse is parse |
| Uki.ParseUkiExact | crates/ota-update/src/image/uki.rs:79-116 | exactly the file names that are read as an image, character by character, and as which version and counter |
| Uki.CounterLimit | crates/ota-update/src/image/uki.rs:90-107 | a number in the name is a counter iff it fits 32 bits |
| Groups.GroupVolumes | crates/ota-update/src/image/group.rs:41-81 | both loops compute the two-phase grouping of slots and boot entries, with its failures |
| Groups.GroupSlotsPartition | crates/ota-update/src/image/group.rs:45-58 | the slot phase succeeds iff no two slots share kind and status, and then every slot is in exactly one group |
| Groups.TogetherIffEqualStatus | crates/ota-update/src/image/group.rs:18-58 | two slots share a group iff their statuses are equal |
| Groups.GroupingOrderFree | crates/ota-update/src/image/group.rs:45-58 | every order of the same slots fails alike, or gives the same groups up to permutation |
| Groups.KernelVersionExact | crates/ota-update/src/image/runtime.rs:434-448 | the version of a kernel is its revision with the first sixteen characters of its hash, if it has one, and none without a revision |
| Runtime.KernelOfManifest | crates/ota-update/src/image/manifest.rs:67-75 | a kernel with the hash and version of a manifest runs the version an install of it names |
| Groups.AttachUkiIff | crates/ota-update/src/image/group.rs:229-235 | an image can be attached exactly to a group without one, and nothing else changes |
| Spelled.GroupByName | crates/ota-update/src/image/group.rs:90-156 | version, identifier, empty, used and legacy of a scanned group, by the text of a volume name |
| Spelled.ImageGroup | crates/ota-update/src/image/group.rs:90-156 | a group of an image alone is in use, of the version of the image, and neither empty, complete nor legacy |
| Spelled.ActiveByName | crates/ota-update/src/image/group.rs:159-171 | a group with a root volume is active iff that volume is named by the revision and hash of the kernel, or is a legacy one if the kernel has no revision |
| Spelled.BootsWhatIsInstalled | crates/ota-update/src/image/runtime.rs:434-448 | a kernel with the hash and version of a manifest boots from the volume that its install names |
| Inventory.UnmanagedExact | crates/ota-update/src/image/uki.rs:118-139 | a scan keeps apart exactly the type 1 entries and the images whose names do not parse |
| Inventory.ScanRest | crates/ota-update/src/image/runtime.rs:53-69 | a scan keeps the kernel, the volumes that are no slots, and these entries, with the boot partition at `/boot` |
| Runtime.FindExactOneGroup | crates/ota-update/src/image/runtime.rs:219-233 | finds the only matching group, none, or fails on a second one |
| Runtime.AllocateEmptyIdentifier | crates/ota-update/src/image/runtime.rs:274-286 | the loop returns the first number below one hundred that no group uses |
| Runtime.FreshIdentifier | crates/ota-update/src/image/runtime.rs:274-286 | the identifier is the least number that no group has, one below one hundred is found unless some group has each of them, and so always with fewer than one hundred groups |
| Runtime.CreateEmptySlot | crates/ota-update/src/image/runtime.rs:144-217 | the loop creates both volumes of a new empty slot, sized from the manifest or the active slot, or fails as specified |
| Runtime.NewVolumeExact | crates/ota-update/src/image/runtime.rs:173-204 | a new volume has the name made of its kind and identifier and the size of the manifest, or else of the active volume, and fails only without either or if the name does not parse |
| Runtime.ResizeIff | crates/ota-update/src/image/runtime.rs:123-142 | exactly the volumes listed as smaller than their image are resized, to the size of the image |
| Runtime.FirstEmpty | crates/ota-update/src/image/runtime.rs:98-102 | selects the first group that is empty, complete and not active, and none only if there is none |
| Plan.InstallIntoSlot | crates/ota-update/src/image/plan.rs:37-62 | the pushed steps are the seven steps in order and the migration of a legacy system, with every error case |
| Plan.InstallStepsIff | crates/ota-update/src/image/plan.rs:37-62 | there are steps iff the slot has both volumes, both empty, and a managed image, and there is an active slot |
| Plan.IsCompressedIff | crates/ota-update/src/image/manifest.rs:101-106 | exactly the names with a character of the last path component before `.zst`, in any case, are unpacked |
| Plan.FullNameJoins | crates/ota-update/src/image/manifest.rs:96-99 | a relative name is joined to its directory with one slash, an absolute one stands for itself |
| Plan.FullNameInjective | crates/ota-update/src/image/manifest.rs:96-99 | different relative names are different files of a directory |
| Spelled.CoreSpelled | crates/ota-update/src/image/plan.rs:48-56 | the seven steps as text: device paths, old and new volume names, and the path of the image |
| Plan.Install | crates/ota-update/src/image/plan.rs:19-35 | nothing for an installed version, otherwise the preparation spliced before the steps |
| Plan.RenameSlotToEmpty | crates/ota-update/src/image/plan.rs:169-193 | one rename per volume that exists, root first |
| Plan.RemoveBootEntries | crates/ota-update/src/image/plan.rs:137-167 | the image of the group and, for a legacy group, all type 1 entries are unlinked |
| Plan.Remove | crates/ota-update/src/image/plan.rs:137-167 | refuses the active group, and otherwise unlinks before it renames |
| Disk.RunPlan | crates/ota-update/src/image/executor.rs:16-21 | commands are started in order, up to and with the first that fails; whatever they do, the run is a trace that stops somewhere, in full iff all succeed |
| Disk.WriteLeavesAnything | crates/ota-update/src/image/executor.rs:48-68 | a write that is cut off may leave anything in its volume |
| Disk.InstallLeavesAnything | crates/ota-update/src/image/executor.rs:48-68 | the installation of an image that is cut off may leave none, or any file |
| Disk.LossLeavesAnything | crates/ota-update/src/image/executor.rs:48-68 | a power loss may leave anything in a volume that is not flushed, and take an image that is not synced |
| Disk.PathResolves | crates/ota-update/src/image/lvm.rs:38-40 | the unescaped device path leads to the volume it names exactly when the group name has no dash and the volume name is its own escaped form |
| Commit.DevicePathExact | crates/ota-update/src/image/lvm.rs:38-40 | the device path of an existing volume leads to it iff neither name has a dash |
| Inventory.SlotPhase | crates/ota-update/src/image/group.rs:45-58 | on a real disk the slot phase cannot fail, and each group holds exactly the volumes of its status |
| Inventory.BootPhaseExact | crates/ota-update/src/image/group.rs:60-79 | the image phase succeeds iff no two images compete for a group, and then attaches every image once |
| Inventory.ScanExact | crates/ota-update/src/image/runtime.rs:53-69 | a scan succeeds iff no two images have one version whose root volume exists, and then finds exactly the groups of the disk, whatever the listing order |
| Frame.EmptyDeviceTarget | crates/ota-update/src/image/lvm.rs:38-40 | even with dashes, the device path of an empty slot never leads to anything but an empty slot |
| Frame.SafeStep | crates/ota-update/src/image/executor.rs:48-68 | a command kept to empty slots and one version changes nothing else, finished or cut off |
| Frame.ActiveSurvives | crates/ota-update/src/image/runtime.rs:260-264 | if changes stay within a version that is not booted, the active group of one scan is the active group of every later one |
| Install.SelectShape | crates/ota-update/src/image/runtime.rs:86-121 | a selected slot is a complete empty pair of one status, carries the new image, and is prepared by resizing or creating |
| Install.AttachCannotFail | crates/ota-update/src/image/runtime.rs:97-120 | an empty group never carries an image, so attaching the new one cannot fail; selection fails iff no slot is found and none can be made |
| Install.FreeIdAbsent | crates/ota-update/src/image/runtime.rs:274-286 | a fresh identifier names no volume of the disk, managed or not |
| Install.SelectedPlanShape | crates/ota-update/src/image/plan.rs:19-62 | every plan that is not empty is preparation, two writes, two flushes, two renames, one image, and the three migration commands iff the active slot is legacy |
| CrashSafety.InstallPlanSafe | crates/ota-update/src/image/plan.rs:19-62 | no command of any install plan can touch anything but empty slots and the new version |
| CrashSafety.SelectedNotBooted | crates/ota-update/src/image/runtime.rs:86-95 | the booted version is never installed a second time |
| CrashSafety.InstallCrashSafe | crates/ota-update/src/image/plan.rs:19-62 | wherever an install stops, with or without a power loss, the active group is untouched and every new scan succeeds and finds it as the one active slot |
| CrashSafety.LossKeepsActive | crates/ota-update/src/image/runtime.rs:260-264 | losing power alone leaves an active group on stable storage where it was |
| Outcome.CommitOrdering | crates/ota-update/src/image/plan.rs:48-56 | wherever an install of a fresh version stops, its image is there only if both volumes are written, flushed and renamed, also after a power loss, unless the selected slot has a twin |
| Outcome.InstallCorrect | crates/ota-update/src/image/runtime.rs:86-217 | unless the selected slot has a twin, a full run leaves what was read in volumes never shrunk and large enough where sizes are known, all else unchanged, one complete group with its image in every scan, and nothing to plan for a second install |
| Retry.RetryFreshIff | crates/ota-update/src/image/plan.rs:37-62 | an install that stopped anywhere, also inside a command or with a power loss, can be tried again as a fresh one iff no rename has been done |
| Retry.RetryCollides | crates/ota-update/src/image/plan.rs:37-62 | once a volume of the version exists, no plan for it can complete |
| Retry.RetryPlansNothing | crates/ota-update/src/image/runtime.rs:86-95 | with both volumes renamed and no image, nothing is planned |
| Retry.RescanIff | crates/ota-update/src/image/group.rs:60-79 | after a finished install every scan succeeds iff no image of the version had another name before |
| Dashes.DashedSlotMisses | crates/ota-update/src/image/lvm.rs:38-40 | for every identifier with a dash, the path of the slot of its escaped form leads to the slot of the plain identifier |
| Dashes.DashedNeverCompletes | crates/ota-update/src/image/plan.rs:37-62 | with a dash in the way and no twin of the selected slot no install can complete |
| Misled.MisledInstall | crates/ota-update/src/image/plan.rs:37-62 | where the selected slot has a twin, every full run gives the version its image while its volumes were never written |
| Misled.MisledCanComplete | crates/ota-update/src/image/plan.rs:19-62 | if the files fit the twins, every prefix of such an install can be continued to a full run |
| Misled.FullRunCases | crates/ota-update/src/image/plan.rs:37-62 | a full run is either straight, with both volumes overwritten by their images and flushed, or goes to a twin, with both as they were before the first image was written; there is no other |
| Misled.CompletesIff | crates/ota-update/src/image/plan.rs:19-62 | with files that fit, an install can complete iff the selected slot is straight or has a twin |
| Twins.AnyPairSelected | crates/ota-update/src/image/runtime.rs:98-102 | every complete empty pair of a disk is the one selected in some scan of it |
| Twins.UnaliasedIff | crates/ota-update/src/image/runtime.rs:98-102 | no pair of a disk has a twin iff no scan of it selects one that has |
| Twins.MisledMachine | crates/ota-update/src/image/plan.rs:37-62 | a machine that is up and, for every version with files as declared, an install that succeeds and leaves both volumes as they were before the first image was written |
| Truncated.WholeImageIff | crates/ota-update/src/image/plan.rs:64-84 | after a full install to a slot without a twin a volume holds its whole image iff what was not read already stood there before the first image was written |
| Truncated.BreakOffUnnoticed | crates/ota-update/src/image/executor.rs:48-68 | every full install with a compressed image of either kind is also one in which it broke off: same commands, same disks, kernel image installed, the image not there |
| Truncated.TruncatedInstall | crates/ota-update/src/image/plan.rs:64-84 | wherever an install can complete, one with its image broken off can |
| Unscannable.InstallEndsScans | crates/ota-update/src/image/group.rs:60-79 | with an image under another name and no volumes the install can complete, and no scan succeeds after it |
| Unscannable.CountedImageEndsScans | crates/ota-update/src/image/group.rs:60-79 | a machine that is up, an image with a boot counter, and a successful install after which no scan succeeds |
| Recovery.RemovePlanIff | crates/ota-update/src/image/plan.rs:137-167 | an unfinished version that is not booted has a plan to remove it iff an identifier is free |
| Recovery.RemoveCanComplete | crates/ota-update/src/image/plan.rs:137-193 | every prefix of a removal that unlinks no entry twice can be continued to a full one |
| Recovery.RemoveCompletesIff | crates/ota-update/src/image/plan.rs:137-193 | a removal can be finished iff it unlinks no entry twice, which only that of a legacy group may, where `bootctl` lists a type 1 entry more than once |
| Recovery.RemovingHelps | crates/ota-update/src/image/plan.rs:137-193 | from volumes without an image, while an identifier is free, a removal can be planned and finished, and the version is fresh again in every scan |
| Recovery.StoppedUnfinished | crates/ota-update/src/image/plan.rs:37-62 | an install that stopped between its first rename and its image leaves volumes without an image |
| Recovery.StoppedHalfWay | crates/ota-update/src/image/plan.rs:37-62 | an install that stopped with exactly one rename done leaves the root volume under the new name, the verity volume under the old one, and no image |
| Recovery.HalfWayReached | crates/ota-update/src/image/plan.rs:37-62 | every full run of an install comes by such a stop |
| Recovery.HalvesPart | crates/ota-update/src/image/plan.rs:169-193 | a removal after one rename leaves each half alone under its identifier, the root volume under the new and the verity volume under the old one, so no scan finds a complete pair of either |
| Halves.RunLone | crates/ota-update/src/image/runtime.rs:86-286 | half a pair of empty volumes stays half a pair in every state of every run of installs, removals and power cycles |
| Halves.HalvesPartForGood | crates/ota-update/src/image/plan.rs:137-193 | after a removal that follows one rename, in every later state of every run the halves keep their different identifiers and no scan finds a complete pair of either |
| Remove.FoundIsOnly | crates/ota-update/src/image/runtime.rs:235-258 | a group found by version or by revision is the only one of its version |
| Remove.FoundIff | crates/ota-update/src/image/runtime.rs:235-258 | a group is found iff it is the only one of the version, or no group is, no hash is given, and it is the only one of the revision with a hash; and then it is that one |
| Remove.PlannedIff | crates/ota-update/src/image/plan.rs:137-167 | a removal is planned iff such a group is there and not active and an identifier is free |
| Spelled.RemovalSpelled | crates/ota-update/src/image/plan.rs:169-193 | old and new volume names of a removal as text |
| Remove.OwnIdUnreachable | crates/ota-update/src/image/plan.rs:137-167 | a group that has a version has no identifier of its own, so a removed group always gets a fresh one |
| Remove.RemoveCrashSafe | crates/ota-update/src/image/plan.rs:137-193 | wherever a removal stops, with or without a power loss, other versions and unmanaged volumes are kept, scans succeed, and an active group on stable storage is found again, intact |
| Remove.RetiredConserves | crates/ota-update/src/image/plan.rs:169-193 | as many volumes with the same contents, only those of the version under new names |
| Remove.RemoveCorrect | crates/ota-update/src/image/plan.rs:137-193 | after a full removal the version is gone in every scan and its volumes form an empty group under the identifier that allocation gives, all else unchanged |
| Backing.InstallBacks | crates/ota-update/src/image/plan.rs:48-56 | also for versions that are not fresh, an image comes only after both its volumes, unless the selected slot has a twin |
| Backing.RemoveBacks | crates/ota-update/src/image/plan.rs:137-167 | a removal drops the image before it renames a volume |
| Runs.StartedUp | crates/ota-update/src/image/group.rs:159-171 | starting any version whose volumes are there brings up exactly one active group, complete |
| Runs.LegacyUp | crates/ota-update/src/image/group.rs:159-171 | starting a kernel without a revision brings up the one complete group without a hash |
| Runs.StepKeepsActive | crates/ota-update/src/image/runtime.rs:86-264 | no install, removal, power loss or boot counting, wherever it stops, changes what is running |
| Runs.RecountRuns | crates/ota-update/src/image/uki.rs:90-114 | an image that gets another counter in its name leaves scans, the active group and its contents as they were |
| Runs.StepHealthy | crates/ota-update/src/image/runtime.rs:86-264 | every step keeps the machine healthy: scans succeed, one active group, complete and on stable storage, every image with both volumes |
| Runs.RunHealthy | crates/ota-update/src/image/runtime.rs:86-264 | the same in every state of every run of installs, removals and power cycles, whichever image or legacy system is started |
| Runs.RunKeepsActive | crates/ota-update/src/image/runtime.rs:86-264 | between any two states of a run with the same kernel the active group is the same, with the same volumes, contents and image |
| Runs.SetUpHealthy | crates/ota-update/src/image/runtime.rs:53-69 | a disk with nothing pending, volumes for every image, none doubled and no twins is a healthy start, whichever of its images runs |
| Runs.LegacySetUpHealthy | crates/ota-update/src/image/runtime.rs:53-69 | so it is if its legacy system runs, whose kernel has no revision |
| Runs.HealthyExists | crates/ota-update/src/image/runtime.rs:53-69 | for every well-formed booted version and every name of its image there is a healthy machine |
| Runs.LegacyHealthyExists | crates/ota-update/src/image/runtime.rs:53-69 | and for every legacy version with a type 1 entry |
| Legacy.RunLegacyBacked | crates/ota-update/src/image/plan.rs:137-167 | in every state of every run a type 1 entry that is still there has its legacy system, complete and on stable storage, given that scans list all type 1 entries |
| Progress.NextCanSucceed | crates/ota-update/src/image/plan.rs:37-62 | after any successful commands of an install of a version without volumes the next one can succeed: no name collides, every path leads to its volume, every image fits |
| Progress.InstallCanComplete | crates/ota-update/src/image/plan.rs:19-62 | every prefix of such an install can be continued to a full one |
| Updating.PlanIff | crates/ota-update/src/image/runtime.rs:86-217 | on a machine that is up there is a plan iff the version is installed, an empty pair is found, or an identifier is free and the sizes are known from the manifest or the active slot |
| Updating.CanUpdate | crates/ota-update/src/image/plan.rs:19-62 | from every healthy machine with an empty pair or a free identifier every fresh version with files as declared has a full run of its install from these files, after which the kernel with the hash of its manifest is started and the machine is healthy again, if the paths of the selected slot lead to it |
| Naming.ParseVmNameExact | crates/admin/src/utils/naming.rs:21-36 | the parser of virtual machine services inverts the printer and accepts nothing else |
| Naming.ServiceNames | crates/admin/src/utils/naming.rs:12-31 | the agent and machine services of a machine and of an application, as text |
| Naming.InstanceRoundTrip | crates/admin/src/utils/naming.rs:41-51 | base name and counter of an instance are recovered, whatever the base holds, iff the counter is an i32 |
| Naming.ParseApplicationExact | crates/admin/src/utils/naming.rs:41-51 | exactly the names that are taken apart into base and number, signs and leading zeros included |
| Registry.Registry.Register | crates/admin/src/admin/registry.rs:58-68 | the entry is put under its name; a replaced one is shut down first, then the new one announced |
| Registry.Registry.Deregister | crates/admin/src/admin/registry.rs:70-87 | fails without effect on an unknown name, otherwise removes exactly the cascade and the entry, one shutdown each, the entry last |
| Registry.Registry.ExtractCascade | crates/admin/src/admin/registry.rs:75-80 | takes out the entries that go with a name, in some order, one shutdown each |
| Registry.Registry.UpdateState | crates/admin/src/admin/registry.rs:160-169 | changes the status of a known entry and tells of it, fails without effect otherwise |
| Registry.Registry.Subscribe | crates/admin/src/admin/registry.rs:179-184 | lists every entry once, for a receiver that starts at what has been published so far |
| Registry.Registry.CreateUniqueEntryName | crates/admin/src/admin/registry.rs:143-153 | ends within as many tries as there are entries plus one, with an unregistered name of the least free counter |
| Registry.ToQueryExact | crates/admin/src/admin/entry.rs:132-155 | what a client is told of a unit: running, paused or off by its four states, its types, its machine and its agent by its placement |
| Registry.RequestEntryExact | crates/admin/src/admin/entry.rs:103-130 | what a unit that registers itself is entered as, which machine it is put in, and whether it is watched |
| Registry.AppEntryExact | crates/admin/src/admin/server.rs:488-502 | what a started application is entered as |
| Registry.RegisterReplays | crates/admin/src/admin/registry.rs:58-68 | replaying the events of a registration over the old view gives the new view |
| Registry.DeregisterReplays | crates/admin/src/admin/registry.rs:70-87 | the same for a deregistration, in whatever order the cascade comes |
| Registry.SetStateReplays | crates/admin/src/admin/registry.rs:160-169 | the same for a status update |
| Registry.CascadeKeepsManagers | crates/admin/src/admin/registry.rs:70-87 | if managers are endpoints and agree on the virtual machine, no deregistration leaves a managed entry without its manager |
| Registry.ManagerLostIff | crates/admin/src/admin/registry.rs:70-87 | without agreement, exactly when an entry is left behind by its manager |
| Registry.StrayAgentLost | crates/admin/src/admin/entry.rs:103-131 | an agent that names another machine as its parent goes with that machine and leaves its applications behind |
| Registry.AppEntryGoesWith | crates/admin/src/admin/server.rs:487-502 | a started application goes exactly when its agent or its virtual machine does |
| Watch.OverlapAbsorbed | crates/admin/src/admin/registry.rs:179-184 | events a snapshot already reflects change nothing when replayed over it |
| Watch.NextKeeps | crates/admin/src/admin/registry.rs:58-184 | every step of writers and subscribers keeps: the channel holds the end of what was sent, and snapshot plus the events from the receiver's start plus the pending ones are the registry |
| Watch.Converges | crates/admin/src/admin/server.rs:916-941 | in every interleaving a subscriber that has consumed all holds exactly the registry, and what its stream delivered is gap-free from where it subscribed |
| Watch.EndsIff | crates/admin/src/admin/server.rs:926-938 | a stream ends exactly when it is asked for an event while more than sixteen undelivered ones were sent, and otherwise delivers the next |
| Watch.EndedStays | crates/admin/src/admin/server.rs:926-938 | a stream that ended delivers nothing more |
| Watch.GapIfItWentOn | crates/admin/src/admin/server.rs:926-938 | a run in which going on after the error would leave the client without an entry for good |
| Proxy.ActionKeeps | modules/pkgs/socketproxy/transport.go:154-251 | every action of either goroutine keeps the account of bytes read, framed, taken and written on both sides |
| Proxy.Integrity | modules/pkgs/socketproxy/transport.go:159-236 | in every reachable state each socket was written a prefix of what the other gave, and the end frame is the last and only one |
| Proxy.ChunkSizes | modules/pkgs/socketproxy/controller.go:108-118 | in every reachable state no chunk is empty or larger than 32 KiB |
| Proxy.FullDelivery | modules/pkgs/socketproxy/transport.go:159-236 | when a socket is closed all frames of the peer were written to it, unless a write to it or a send of its side failed; with the end frame that is all the peer read |
| Proxy.RunBounded | modules/pkgs/socketproxy/transport.go:154-251 | every action lowers an explicit measure, so every run on finite input is finite |
| Unwinding.RunsOn | modules/pkgs/socketproxy/transport.go:154-251 | every run can be continued until nothing moves |
| Unwinding.Unwinds | modules/pkgs/socketproxy/transport.go:154-251 | once a read ended, a run that can go no further has ended all four goroutines with both sockets closed, unless one application is deaf to what the other says before it closes; without write failures, only then |
| Unwinding.UnwindsIff | modules/pkgs/socketproxy/transport.go:154-251 | for two given applications, all runs with an ended read unwind iff neither is deaf, without closing, to one that has something to say and closes |
| Unwinding.AlwaysUnwindsIff | modules/pkgs/socketproxy/transport.go:154-251 | all runs unwind iff both applications close, or one does and the other says nothing and, if there is something to hear, hears it |
| Unwinding.HangsAfterWriteFailure | modules/pkgs/socketproxy/transport.go:190-209 | whenever one application closes and the other does not but has something to say: a run in which one side left after a failed write and the other hangs with its socket open |
| Unwinding.HangsAtDeafApplication | modules/pkgs/socketproxy/transport.go:190-236 | whenever an application shut down only its receiving half and the other says something and closes: a run in which both sides hang although a read ended |
| Losses.LostAfterWriteFailure | modules/pkgs/socketproxy/transport.go:202-236 | whenever a write may fail at the serving side, which has something to say, and its peer has two bytes or more: a run in which a failed send makes the peer drop frames meant for a socket that still works |
| Losses.LosslessIff | modules/pkgs/socketproxy/transport.go:120-236 | for two given applications, all that was read has been written by the time the socket is closed, in all runs, iff the first has nothing to say, or the second stays and hears and one of three holds: no write can fail at the first, the first does not serve the call, the second has one byte at most |
| Delivery.PolicyManager.constructor | crates/policyadmin/src/policy_manager.rs:60-86 | exactly the virtual machines named by some policy of the configuration get a worker with an empty queue, where the step system starts |
| Delivery.PolicyManager.SendToVm | crates/policyadmin/src/policy_manager.rs:148-166 | a policy is appended to the queue of a known machine, and refused for any other: the enqueue step of the system |
| Delivery.OthersRepresent | crates/policyadmin/src/policy_manager.rs:112-140 | no step of a worker or the update task changes what was queued, so class and step system go on together |
| Delivery.NextKeeps | crates/policyadmin/src/policy_manager.rs:112-140 | every step keeps: attempts, then what is in the channel, are what the worker handed on, with at most one unanswered |
| Delivery.InOrder | crates/policyadmin/src/policy_manager.rs:94-167 | in every interleaving the attempts for a machine are the first of its queue, in order and once each, with at most one request outstanding |
| Delivery.AllAttempted | crates/admin/src/admin/server.rs:111-126 | when neither workers nor the update task can move, everything queued has been attempted |
| Upload.UploadPolicy | crates/admin/src/admin/policyclient.rs:55-89 | for every way the reads cut a file up, the chunks joined are what was read, none empty or over the buffer, and the name goes with the first only |
| Upload.ReadsAnyhow | crates/admin/src/admin/policyclient.rs:66-75 | reads of every size from one byte to three mebibytes, and a failure of any of them, are covered |
| Upload.StreamPolicy | modules/pkgs/policyadmin/transport.go:51-122 | the receiver joins the chunks under the name of the first, fails on a nameless or broken stream and on any trouble with the temporary file, and when that file is left |
| Upload.RoundTrip | crates/admin/src/admin/policyclient.rs:55-89 | the receiver holds exactly the file under its name iff all of it was read |
| PolicyStore.PolicyAdminController.UpdatePolicy | modules/pkgs/policyadmin/controller.go:51-108 | one update with any of its operations failing has the specified effect on map, store and destinations |
| PolicyStore.PolicyAdminController.CopyPolicy | modules/pkgs/policyadmin/controller.go:114-142 | a copy truncates first, so one that fails leaves a beginning of the new file |
| PolicyStore.RunConsistent | modules/pkgs/policyadmin/controller.go:51-108 | over every run of updates, whatever fails, a recorded hash is that of the stored file |
| PolicyStore.UpdateSucceeds | modules/pkgs/policyadmin/controller.go:51-108 | a successful new install leaves store and destination equal to the pulled bytes, and when exactly the destination is right after any success |
| PolicyStore.UpdateOkIff | modules/pkgs/policyadmin/controller.go:51-108 | exactly when an update succeeds, over all faults |
| PolicyStore.UpdateFails | modules/pkgs/policyadmin/controller.go:51-108 | a failed update keeps map and store and damages at most the one destination |
| PolicyStore.DamageStays | modules/pkgs/policyadmin/controller.go:77-79 | sending the recorded policy again succeeds and leaves a damaged destination as it is |
| PolicyInstall.ReceivePolicy | modules/pkgs/policyadmin/transport.go:51-130 | a stream is received and installed as a whole, and changes nothing where receiving fails |
| PolicyInstall.CarriedInstalls | modules/pkgs/policyadmin/transport.go:51-130 | a file received whole and updated without faults is the stored file and the destination, unless its hash was recorded before |
| PolicyInstall.Distribute | crates/admin/src/admin/policyclient.rs:55-89 | from the sender's file to the receiver's store and destination: what was read is installed, and that is the file iff all of it was read |

## Left out

- Outcome.InstallCorrect: says of a compressed image only that the volume starts with what was read; `Truncated.WholeImageIff` says when that is all of it.
- CrashSafety.InstallCrashSafe: requires that images of the version have the name the updater gives, or that it is installed; `Retry.RescanIff` shows that this is exact for finished installs.
- Runs.RunHealthy: starts from a machine whose images have their volumes, with one complete active group on stable storage and no twins, such as `Runs.SetUpHealthy` and `Runs.LegacySetUpHealthy` give; `Twins.UnaliasedIff` shows why all pairs count.
- Updating.CanUpdate: there is a run that succeeds; that devices and tools do not fail is not promised.
- More than one volume group: grouping ignores the group name, and the model has one.
- Rules of LVM on names other than the ban on `/`, the free space of the group, and extent rounding beyond "at least".
- Removing a boot entry is taken to be durable once `bootctl unlink` succeeded.
- Names of files that end in a slash, which Rust paths drop.
- Parsing of the kernel command line, `lvs` and `bootctl` output, and of the manifest with its path normalisation and checksums.
- `SlotGroup::validate`, `classify` and `slots_by_class`: constant as written, and not used by install or remove.
- Shell quoting, JSON and SHA-256: commands are values, and the hash is any function that never returns the empty text.
- The contents of `loader.conf` and the effect of the bootloader migration, which does not touch slots or images.
- Uniqueness of instance names across concurrent `start_app` calls, which the source does not provide.
- The overflow of the instance counter, an `i32`, which takes more than two thousand million entries.
- Back pressure in the proxy and the broadcast channel: sends and socket writes are never stuck for lack of room.
- A policy update task that has ended, and policy files or destinations that are changed by others.
- A policy destination inside the policy store, and reloading the policy map in a new process.
- Git change sets of policies, Cedar and certificate checks, the gRPC, TLS and vsock plumbing, and the D-Bus and systemd services.
