# USB plot archiver: a Dafny model

This project models the scheduling core of a set of Chia plot-farm
services. The services move finished plot files out of a plotting directory
onto USB-attached farm disks, and mount and unmount those disks:

- `services/usb-archiver/misc.js` (module `Misc`) gathers the partitions under
  the farm directory. It joins each partition with its filesystem capacity
  record. It finds each partition's USB bus through udev and learns whether
  the bus has a USB 3.0 root hub.
- `services/usb-archiver/copy-task.js` (module `CopyTasks`) defines
  `CopyTaskManager` and `CopyTask`.
  - `CopyTaskManager` groups the USB 3 farm partitions by bus. It picks an
    idle bus and a best-fit partition on it, and starts one `rsync` copy per
    bus. It keeps the table of running tasks and prints a report of them.
  - `CopyTask` holds one copy and parses its progress output.
- `services/usb-archiver/usb-archiver.js` (module `UsbArchiver`) reads the
  command line. Its poll loop screens each directory entry for the `.plot`
  suffix, the size gate and the age gate, then offers ready files to the
  manager.
- `archiver.js` (module `Archiver`) is the older single-disk archiver. Its
  poll loop copies every ready plot to the best-fit farm partition. It stops
  the pass when all partitions are full or a copy fails.
- `services/mount/mount.js` (module `Mount`) parses `df` to find what is
  already mounted. It mounts (and `chown`s) each disk of the scan directory
  that is not mounted yet, or unmounts them all.

Shared pieces have their own modules:

- `Readiness`: the gates.
- `Selection`: the capacity split and best-fit choice.
- `PartOrder`: lodash `sortBy` as a stable insertion sort.
- `Text`, `Seqs` and `Cli`: JavaScript string, array and argument semantics.

Outside information becomes parameters of the model:

- the operating system's answers: `si.blockDevices`, `si.fsSize`, `si.usb`,
  `udev.list`, `fs.statSync`, `fs.readdirSync`, `df`, the uid;
- the clock;
- which mount points are writable;
- which commands succeed.

JavaScript `undefined` is `Option.None`. An exception that escapes an
operation is `Result.Err` carrying the message JavaScript would give.

## Model

| member | source | states |
|---|---|---|
| Misc.AllPartsInfo | services/usb-archiver/misc.js:6-17 | every kept block device is an ext4 `part` whose mount starts with the farm directory, and every such device is kept |
| Misc.AllPartsInfoExact | services/usb-archiver/misc.js:8-11 | the filter keeps each qualifying device exactly as often as it is listed and commutes with concatenation of listings |
| Misc.AllFsInfo | services/usb-archiver/misc.js:19-23 | exactly the capacity records whose mount starts with the farm directory are kept |
| Misc.AllFsInfoExact | services/usb-archiver/misc.js:21 | the capacity filter keeps multiplicities and commutes with concatenation |
| Misc.Spread | services/usb-archiver/misc.js:52 | `{...part, ...fsInfo}`: the capacity record's fields override the partition's, the partition's other fields survive |
| Misc.FindSpace | services/usb-archiver/misc.js:51 | `_.find` by mount returns the first matching record, or none when no record has that mount |
| Misc.MergePartAndSpace | services/usb-archiver/misc.js:49-54 | one output per partition with the mount unchanged; a partition with no capacity record is left as is, otherwise it is spread with the first record of its mount; free space is known iff it was known or a record matched |
| Misc.FindBusMatch | services/usb-archiver/misc.js:38 | finds the leftmost position where `/usb<digits>/` matches, or reports that none does |
| Misc.UsbBusOf | services/usb-archiver/misc.js:38 | no bus iff the device path has no `/usb<digits>/`; otherwise the bus is `usb` followed by digits and sits between slashes at the leftmost match |
| Misc.IsUsb3Spec | services/usb-archiver/misc.js:28-42 | a bus is USB 3 iff the first root hub (`deviceId === 1`) on that bus number has `3.0` in its name, and never when no hub is on the bus |
| Misc.HubsSpec | services/usb-archiver/misc.js:28-41 | finding the hub among the filtered root hubs is the same as finding the first root hub in the full USB listing |
| Misc.UdevEntryOf | services/usb-archiver/misc.js:36-43 | a device gets an entry exactly when its path names a bus; the entry keeps the device and carries that bus |
| Misc.UdevInfo | services/usb-archiver/misc.js:25-47 | succeeds iff every USB ext4 disk partition has a bus in its path; then one entry per such partition in order, with its bus and the hub-derived USB 3 flag; otherwise the `TypeError` the null match raises |
| Misc.FindLabel | services/usb-archiver/misc.js:61 | `_.find` by filesystem label returns the first entry with that label, or none |
| Misc.AssignBuses | services/usb-archiver/misc.js:60-67 | succeeds iff every partition's label has a udev entry; then each partition gets the bus and USB 3 flag of its first matching entry, otherwise the `TypeError` reading `IS_USB3` of undefined |
| Misc.DiskUsbAssign | services/usb-archiver/misc.js:57-69 | on success every assigned partition is a farm partition carrying a bus and a USB 3 flag, one per farm partition; a udev failure propagates |
| PartOrder.SortBy | services/usb-archiver/usb-archiver.js:87 | `sortBy([field, 'label'])` yields a permutation of its input sorted by the field then the label |
| PartOrder.InsertSorted | services/usb-archiver/usb-archiver.js:87 | inserting into a sorted list keeps it sorted, the step of the stable sort |
| PartOrder.HeadIsLeast | services/usb-archiver/usb-archiver.js:96 | the first element of a sorted list sorts no later than any member |
| PartOrder.KeyLeTotal | services/usb-archiver/usb-archiver.js:87 | the (field, label) ordering is total, so every pair of partitions is ordered |
| PartOrder.KeyLeTransitive | services/usb-archiver/usb-archiver.js:87 | the (field, label) ordering is transitive |
| Selection.FullParts | services/usb-archiver/usb-archiver.js:86 | every full partition has known free space below the need, and every listed partition below the need is among them |
| Selection.FullPartsExact | services/usb-archiver/usb-archiver.js:86 | a partition is kept exactly as often as it is listed when it is below the need and never otherwise; the full parts of two listings joined are the full parts of each, in listing order |
| Selection.AvailableParts | services/usb-archiver/usb-archiver.js:87 | the candidates have free space above the need and are sorted by free space then label |
| Selection.AvailablePartsExact | services/usb-archiver/usb-archiver.js:87 | the candidates are exactly the partitions above the need, each as often as listed |
| Selection.ThresholdExcluded | services/usb-archiver/usb-archiver.js:86-87 | a partition with exactly the needed free space, or unknown free space, is neither full nor a candidate |
| Selection.HeadOfAvailable | services/usb-archiver/usb-archiver.js:87-96 | any partition above the need makes the candidate list non-empty, and the first candidate sorts no later than it |
| Selection.BestFit | services/usb-archiver/usb-archiver.js:90-96 | none iff no partition is above the need; otherwise a listed partition above the need with the least free space, ties broken by the least label |
| Selection.SelectDestPart | services/usb-archiver/usb-archiver.js:79-98 | over the merged farm partitions: undefined iff none is above the need; otherwise the best fit, which lies under the farm directory |
| Selection.DiskInfoRanking | services/usb-archiver/usb-archiver.js:187-193 | the dry-run ranking holds only partitions above the need, in descending order of use percentage |
| Selection.DiskInfoRankingExact | services/usb-archiver/usb-archiver.js:188-193 | the ranking lists exactly the partitions above the need, each as often as listed |
| Readiness.PlotPathIffName | services/usb-archiver/usb-archiver.js:114-116 | the joined path ends in `.plot` iff the file name does |
| Readiness.GateOf | services/usb-archiver/usb-archiver.js:122-137 | too small iff the size is below the plot size; too fresh iff big enough and last written less than 45 seconds ago (the corrected age test); ready otherwise |
| Readiness.AgeTestAsWrittenNeverWaits | services/usb-archiver/usb-archiver.js:130-132 | with a real clock, the age test as written never holds back a file whose modification time is not in the future |
| Readiness.AgeTestIntended | services/usb-archiver/usb-archiver.js:130-132 | the intended test holds a file back exactly while it was written less than 45 000 ms ago |
| Readiness.JustWrittenPlotWitness | archiver.js:163-165 | a plot modified at this instant passes the test as written but is held back by the intended one |
| CopyTasks.DiskMappingWellGrouped | services/usb-archiver/copy-task.js:26-30 | `groupBy(filter(isUsb3), 'usbBus')` yields distinct bus keys, non-empty groups, and each member filed under its own bus |
| CopyTasks.DiskMappingMembers | services/usb-archiver/copy-task.js:28 | every grouped partition is a USB 3 partition of the assignment |
| CopyTasks.DiskMappingComplete | services/usb-archiver/copy-task.js:28 | every USB 3 partition of the assignment appears in its bus's group |
| CopyTasks.PartsOf | services/usb-archiver/copy-task.js:46 | `diskMapping[host]` is the group of the first entry with that bus |
| CopyTasks.Tokens | services/usb-archiver/copy-task.js:184 | the progress chunks are non-empty, are not a lone carriage return and contain no space; every space-separated piece other than `''` and a lone `'\r'` is among them |
| CopyTasks.TokensOfPieces | services/usb-archiver/copy-task.js:184 | the chunks of a space-joined list of space-free pieces are exactly the pieces other than `''` and a lone `'\r'`, in their order |
| CopyTasks.TokensOfLine | services/usb-archiver/copy-task.js:184 | splitting a space-joined line of clean words gives the words back |
| CopyTasks.CopyTask.constructor | services/usb-archiver/copy-task.js:150-170 | the task records its id, source, destination and bus, with all progress fields empty strings |
| CopyTasks.CopyTask.Command | services/usb-archiver/copy-task.js:175 | the command is `rsync -aP --remove-source-files `, contains the source path and ends with the destination (`undefined` when unknown) |
| CopyTasks.CopyTask.OnStdoutData | services/usb-archiver/copy-task.js:183-189 | the four progress fields become the first four chunks of the output, undefined where there are fewer |
| CopyTasks.ConcatHasLine | services/usb-archiver/copy-task.js:137-139 | every appended report line occurs in the report at the offset where it was appended |
| CopyTasks.TaskLines | services/usb-archiver/copy-task.js:137-138 | one report line per task, in the map's insertion order |
| CopyTasks.Without | services/usb-archiver/copy-task.js:125 | removing a key keeps every other key and no duplicates |
| CopyTasks.IdleBuses | services/usb-archiver/copy-task.js:33-35 | `_.difference(allUsb3Hosts, occupiedHosts)`: the buses of the mapping that no task occupies, and all of them |
| CopyTasks.Candidates | services/usb-archiver/copy-task.js:46-51 | a bus's merged partitions above the need, sorted by free space then label |
| CopyTasks.FirstFeasibleBus | services/usb-archiver/copy-task.js:45-76 | the bus the loop stops at is the first tried host with a candidate (every host before it has none), and there is none iff no tried host has a candidate |
| CopyTasks.FeasibleBusIsIdle | services/usb-archiver/copy-task.js:35-73 | the bus `getWriteDest` reports is in the mapping and free of tasks |
| CopyTasks.ProbedMounts | services/usb-archiver/copy-task.js:59-72 | the code as written probes at most one mount, and one exactly when some idle bus has a candidate |
| CopyTasks.ProbeCandidates | services/usb-archiver/copy-task.js:59-72 | the inner loop as written takes the first candidate's mount whether or not it is writable and probes nothing else |
| CopyTasks.FirstWritable | services/usb-archiver/copy-task.js:60-72 | the intended probe yields none iff no candidate mount is writable, otherwise the first writable one |
| CopyTasks.FirstWritableBus | services/usb-archiver/copy-task.js:45-76 | the intended loop stops at the first tried host having a writable candidate (every host before it has none), none iff no host has one |
| CopyTasks.IntendedWriteDest | services/usb-archiver/copy-task.js:32-79 | undefined iff no bus is idle; otherwise bus and destination are both set or both unset; a set pair is an idle mapped bus and a writable candidate of it; an unset pair means no idle bus had a writable candidate |
| CopyTasks.IntendedWriteDestFirst | services/usb-archiver/copy-task.js:45-76 | a set pair is the first idle bus with a writable candidate (every idle bus before it has none) and the first writable mount among that bus's candidates, best fit first |
| CopyTasks.HasWritableDestIff | services/usb-archiver/copy-task.js:95-102 | the intended availability check holds iff some idle bus has a writable candidate partition |
| CopyTasks.WritableDestinationWitness | services/usb-archiver/copy-task.js:59-78 | one idle bus with one writable candidate: the code as written returns no destination, the intended one returns it |
| CopyTasks.CallbackHandler | services/usb-archiver/copy-task.js:108-115 | as written, a successful copy runs `onTaskFailed` |
| CopyTasks.IntendedHandler | services/usb-archiver/copy-task.js:108-115 | a successful copy runs `onTaskFinish`, a failed one `onTaskFailed` |
| CopyTasks.CallbackInverted | services/usb-archiver/copy-task.js:108-115 | the callback as written picks the wrong handler on every exit status |
| CopyTasks.SetKeepsOneTaskPerBus | services/usb-archiver/copy-task.js:117 | storing a task on a bus no task occupies keeps at most one task per bus |
| CopyTasks.StoreKeepsTaskTable | services/usb-archiver/copy-task.js:117-120 | storing a task and incrementing the id keeps the table's invariant: keys match source paths, ids below the counter, one task per bus |
| CopyTasks.DeleteKeepsTaskTable | services/usb-archiver/copy-task.js:123-131 | deleting a task keeps the table's invariant |
| CopyTasks.CopyTaskManager.constructor | services/usb-archiver/copy-task.js:10-17 | a new manager has id counter 1, no tasks and an empty mapping |
| CopyTasks.CopyTaskManager.UpdateDiskMapping | services/usb-archiver/copy-task.js:26-30 | a successful assignment replaces the mapping by its grouping; a failed one leaves it unchanged |
| CopyTasks.CopyTaskManager.GetWriteDest | services/usb-archiver/copy-task.js:32-79 | undefined iff no bus is idle; otherwise the first idle bus with a candidate and, because of the shadowed `writeDest`, no destination |
| CopyTasks.CopyTaskManager.CheckAvailable | services/usb-archiver/copy-task.js:95-102 | as written the check is always false |
| CopyTasks.CopyTaskManager.CanHandleFile | services/usb-archiver/copy-task.js:81-93 | as written no file is ever accepted |
| CopyTasks.CopyTaskManager.GetWriteDestIntended | services/usb-archiver/copy-task.js:32-79 | the corrected search returns the intended destination tuple |
| CopyTasks.CopyTaskManager.CheckAvailableIntended | services/usb-archiver/copy-task.js:95-102 | available iff some idle bus has a writable candidate |
| CopyTasks.CopyTaskManager.CanHandleFileIntended | services/usb-archiver/copy-task.js:81-93 | accepted iff a writable destination exists and the file is not already being copied |
| CopyTasks.CopyTaskManager.StartTask | services/usb-archiver/copy-task.js:104-121 | with an idle bus, a fresh task with the current id is stored under the source path and the id advances; its destination is undefined as written; with no idle bus nothing changes |
| CopyTasks.CopyTaskManager.StartTaskIntended | services/usb-archiver/copy-task.js:104-121 | as `StartTask`, but the task's bus and destination are the intended destination tuple |
| CopyTasks.CopyTaskManager.Register | services/usb-archiver/copy-task.js:108-120 | the new task carries the id, path, destination and bus, is stored under its path, and the id advances by one |
| CopyTasks.CopyTaskManager.Complete | services/usb-archiver/copy-task.js:108-131 | the task's entry is removed and the others kept; a clean exit runs `onTaskFinish`, a failed one `onTaskFailed` (the corrected callback) |
| CopyTasks.CopyTaskManager.GetReport | services/usb-archiver/copy-task.js:133-143 | the loop builds the header followed by one line per task in insertion order |
| CopyTasks.CopyTaskManager.ReportListsEveryTask | services/usb-archiver/copy-task.js:137-139 | every running task's line appears in the report |
| UsbArchiver.DefaultNeedExceedsPlot | services/usb-archiver/usb-archiver.js:13-18 | the default free-space need exceeds the default plot size by 1 GB |
| UsbArchiver.GetConfig | services/usb-archiver/usb-archiver.js:27-76 | the four panics in order with their messages; otherwise the directories and defaults, with only the first given print flag setting its mode, so a dry run has exactly one print mode and a normal run none |
| UsbArchiver.Screen | services/usb-archiver/usb-archiver.js:114-137 | an entry is skipped as not a plot iff it lacks the suffix, fails iff its stat throws, and is a candidate iff it passes both gates |
| UsbArchiver.CountStarted | services/usb-archiver/usb-archiver.js:141-143 | no more tasks are started than entries visited |
| UsbArchiver.Offer | services/usb-archiver/usb-archiver.js:141-143 | a file is started iff a writable destination exists and it is not already copying; a started file holds a task with a writable destination, made with the current id for that path on the bus and mount the intended lookup finds against the table it met, and its key comes last in the map order; the id advances by one; otherwise nothing changes |
| UsbArchiver.HandleFile | services/usb-archiver/usb-archiver.js:113-167 | each entry's step agrees with its screening; the entry is started iff it is a candidate, some idle bus has a writable candidate and its path keys no running task; only a started entry changes the table, adding exactly its own new task, with the current id and the intended bus and mount, its key last in the map order |
| UsbArchiver.RunLoop | services/usb-archiver/usb-archiver.js:100-168 | no steps without the watch directory; otherwise one step per entry agreeing with its screening, each started iff it is a candidate, a writable destination exists against the task table it met and its path is not copying; between entries only a start changes the table; every key added belongs to a started entry; every started file holds a writable task made with the id reached so far, on the bus and mount the intended lookup found against the table it met; existing tasks are kept; the id advances once per start; the map order gains exactly the started paths, in listing order, and is unchanged without the watch directory |
| UsbArchiver.StartedPaths | services/usb-archiver/usb-archiver.js:141-143 | the paths a loop pass adds to the map order: one per start, so as many as the starts |
| UsbArchiver.DecidedEach | services/usb-archiver/usb-archiver.js:113-143 | in the loop's record, entry `j` was started iff it was a candidate, some idle bus had a writable candidate against the task table it met, and its path keyed no running task |
| Archiver.ArchiveFile | archiver.js:92-109 | resolves iff rsync succeeds; the command copies the path to the destination with `--remove-source-files`; a rejection carries `Upload: <path> exited with error` |
| Archiver.ReadyIndices | archiver.js:146-170 | exactly the positions below a bound whose entry is a ready plot, strictly increasing |
| Archiver.ReadyIndicesPrefix | archiver.js:146-191 | the ready positions below a smaller bound are a prefix of those below a larger one |
| Archiver.VisitEntry | archiver.js:147-190 | an entry passes iff it is not a ready plot and its stat does not throw; a copied entry is a ready plot archived to the selected part; a stop has its reason |
| Archiver.GetConfig | archiver.js:26-57 | the four panics in order with their messages; otherwise the two directories over the defaults (a 30-second loop interval) |
| Archiver.ArchiveEach | archiver.js:146-191 | the pass archives exactly the ready plots before the point where it ended, in order, each to the part selected at its turn; no `.plot` entry before the end has a failing stat; the end is justified by a stat failure, no free part, or a failed copy |
| Archiver.RunPass | archiver.js:132-192 | a missing watch directory or an empty listing archives nothing; otherwise the same as the per-entry loop, including that no `.plot` entry before the end has a failing stat |
| Archiver.StoppedPassIsPrefix | archiver.js:176-186 | a pass that stops early archives a prefix of what a full pass over the same listing would |
| Mount.LastField | services/mount/mount.js:50 | `_.last(e.split(' '))` contains no space, and is the line itself when it has none |
| Mount.MountedPaths | services/mount/mount.js:48-50 | one path per line of the `df` output after the header |
| Mount.MountedPathsOfTable | services/mount/mount.js:50 | for a table of space-separated rows under a header, the parsed paths are exactly the last column |
| Mount.LastFieldsOfRows | services/mount/mount.js:50 | the last field of each joined row is the row's last column |
| Mount.NeedMountDisks | services/mount/mount.js:52 | a disk needs mounting iff its mount point is not among the mounted paths |
| Mount.NeedMountDisksConcat | services/mount/mount.js:52 | the need filter commutes with concatenation of listings |
| Mount.NeedMountDisksCount | services/mount/mount.js:52 | each needed disk is kept exactly as often as listed |
| Mount.MountCommand | services/mount/mount.js:64 | `mount`, then `-o ro` only when read-only, then the device, then the mount point |
| Mount.ChownCommand | services/mount/mount.js:65 | a recursive `chown` of the mount point |
| Mount.UnmountCommand | services/mount/mount.js:82 | a lazy `umount -l` of the mount point |
| Mount.GetConfig | services/mount/mount.js:17-44 | the two panics in order; otherwise the directories as given, and `readOnly` and `umount` as the truthiness of their flags |
| Mount.MountPoints | services/mount/mount.js:57-58 | every disk's mount point is among the created directories |
| Mount.MountPointsOnly | services/mount/mount.js:57-58 | only the disks' mount points are created |
| Mount.MountOne | services/mount/mount.js:56-72 | one disk: its directory exists afterwards; the mount command runs first; a failed mount stops there; otherwise the `chown` runs and the outcome records whether it failed |
| Mount.MountEach | services/mount/mount.js:55-73 | one attempt per needed disk in order, and the created directories are exactly the old ones plus their mount points |
| Mount.MountAll | services/mount/mount.js:46-74 | attempts exactly the disks not already mounted according to `df`, in listing order |
| Mount.UnmountAll | services/mount/mount.js:77-90 | one lazy unmount per listed disk in order, failing exactly for the failing ones, without stopping |
| Mount.Run | services/mount/mount.js:92-115 | the panics in order (configuration, non-root, empty scan directory); otherwise unmounting iff `--umount` is truthy: one lazy unmount per listed disk, failing exactly for the failing ones; or mounting exactly the disks `df` does not show, each with its commands and outcome, and the mount points created |
| Text.PathJoin | services/usb-archiver/usb-archiver.js:114 | `path.join(dir, name)` begins with the directory, ends with the name, with one slash between |
| Text.SplitJoin | services/mount/mount.js:50 | splitting a separator-joined list whose pieces avoid the separator gives the pieces back |
| Text.JoinSplit | services/mount/mount.js:50 | joining the pieces of a split with the separator gives the string back |

## Left out

- Operating-system queries become inputs: `si.blockDevices`, `si.fsSize`, `si.usb`, `udev.list`, `fs.statSync`, `fs.readdirSync`, `fs.existsSync`, `df`, `process.getuid` and `accessSync`. Writability is a set of mount points, and command success is a set of failing disks or a boolean.
- `exec`/`execSync` and the `rsync`, `mount`, `chown` and `umount` processes are not run. The model builds their command lines and takes their exit status as input.
- Timers and asynchrony are left out: `setInterval` (the 5-second report timer), `setIntervalAsync`, `sleep`, and the fact that `startTask` is not awaited. Each poll pass is one sequential call, and a copy's completion is the separate `Complete` call.
- `CopyTasks.CopyTaskManager.StartTask`: when no bus is idle, the source destructures `undefined` and the un-awaited promise rejects. The model returns `false` and leaves the state unchanged. In the source the rejection is unhandled, which by default ends a Node.js process from version 15 on; the model does not capture that end.
- The `yargs` parser is left out. The flags of usb-archiver.js and archiver.js, and mount.js's `--readonly` and `--umount`, are modelled as `ArgValue`s (absent, boolean, string or number).
- `Mount.GetConfig` and `Mount.Run` take mount.js's `--mountdir` and `--scandir` as strings only; absent or empty means not given. Values that yargs parses as something other than a string are left out. `--scandir 0` becomes the number 0, which the source rejects with the same panic (mount.js:34-35). A bare `--mountdir` becomes `true`, which passes the check (mount.js:30). Then `path.join` throws a TypeError outside any try (mount.js:52 when mounting, mount.js:79 when unmounting).
- `hasDir` returns the `isDirectory` method itself, which is always truthy. The model therefore treats it as "the path exists".
- Logging, `console.log` of the configuration, and the dry-run printing of USB and udev listings are left out. So is the `Math.round` formatting of the disk/USB assignment listing (usb-archiver.js:219-239). The ranking behind the disk-info printout is modelled.
- A throw from `fs.readdirSync` or `fs.mkdirSync` is not modelled. The try/catch around mounting is modelled through the failing-command sets.
- `path.join` normalisation (`..`, duplicate slashes, a trailing slash on the directory) is not modelled. `Text.PathJoin` is a plain concatenation with one slash.
- Where a finding below shows the code as written is wrong, the rest of the model uses the corrected behaviour. The as-written members are kept, and proved about, separately:
  - `UsbArchiver.RunLoop` offers files through `CanHandleFileIntended`/`StartTaskIntended`. As written, `CanHandleFile` is always false and the loop would never start a task.
  - `Readiness.GateOf` uses the intended age test. As written, the age gate never holds a file back.
  - `CopyTasks.CopyTaskManager.Complete` runs the handler matching the exit status.
- `CopyTasks.CopyTaskManager.UpdateDiskMapping`: a rejected `getDiskUsbAssign` leaves the mapping unchanged. The source's `.then` has no `catch`, so the rejection is unhandled and by default ends the process; the model does not capture that end.
- `archiver.js`'s `getAllPartsInfo`, `getAllFsInfo` and `mergePartAndSpace` repeat the usb-archiver versions. They are modelled once, in `Misc` and `Selection`. `archiveFileSync` (81-90) is never called and is not modelled.
- `getDiskUsbAssign`: a farm partition whose label has no udev entry makes the source throw reading `IS_USB3` of undefined, and the model follows the code (an `Err`).
- `utils` is not part of this model. `mount.js`, `usb-archiver.js` and `copy-task.js` (lines 1 and 6) destructure `loggerFactory` from it, which `utils/index.js` does not export, so logging there would fail before anything runs. The model leaves logging out altogether.
- The uploader and receiver services are not part of this model.

## Findings

| source | as written | input that shows it | evidently intended | confidence | as-written member | corrected member |
|---|---|---|---|---|---|---|
| services/usb-archiver/copy-task.js:59 | an inner `let writeDest` shadows the outer one, so the returned tuple never carries a destination and `checkAvailable`/`canHandleFile` are always false | one idle bus `usb1` with one USB 3 partition mounted at `/farm/a`, 200 bytes free against a need of 100, `/farm/a` writable | return the first writable best-fit mount of the first idle bus that has one | not executed | CopyTasks.CopyTaskManager.GetWriteDest, CopyTasks.CopyTaskManager.CanHandleFile, CopyTasks.WritableDestinationWitness | CopyTasks.IntendedWriteDest, CopyTasks.CopyTaskManager.GetWriteDestIntended, CopyTasks.HasWritableDestIff |
| services/usb-archiver/copy-task.js:60-72 | the probe loop stops after the first candidate whether or not it is writable, because `writeDest` is no longer undefined | a bus whose best-fit partition is not writable but whose second one is | try candidates in order until a writable one is found | not executed | CopyTasks.ProbeCandidates, CopyTasks.ProbedMounts | CopyTasks.FirstWritable, CopyTasks.FirstWritableBus |
| services/usb-archiver/copy-task.js:108-115 | `if (!err)` calls `onTaskFailed` and a failure calls `onTaskFinish` | any copy that exits with status 0 | success finishes the task, failure reports it failed | not executed | CopyTasks.CallbackHandler, CopyTasks.CallbackInverted | CopyTasks.IntendedHandler |
| services/usb-archiver/usb-archiver.js:130 | `new Date() - new Date(lastModTime) / 1000` divides only the modification time, so with a real clock the age gate never holds a file back (same at archiver.js:163) | a plot modified at 1 700 000 000 000 ms, checked at that same instant | wait until 45 seconds have passed since the last write | not executed | Readiness.TooFreshAsWritten, Readiness.AgeTestAsWrittenNeverWaits, Readiness.JustWrittenPlotWitness | Readiness.TooFreshIntended, Readiness.AgeTestIntended |
