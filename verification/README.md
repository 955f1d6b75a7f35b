# tiBackupLib: a Dafny model of its logic

tiBackupLib is the core of a disk-based backup system: it keeps job definitions, decides when a job is
due, mounts a target, runs rsync and Proxmox Backup Server (PBS) legs, and hands results back to a manager.
Most of the code is glue around foreign programs. This project models the parts whose correctness does not
depend on the glue, and proves what they promise for all inputs, runs and interleavings.

`dafny verify dfyconfig.toml` checks the whole project.

| file | what it models |
|---|---|
| MultiHash.dfy, Jobs.dfy, Options.dfy, Splitting.dfy, Paths.dfy, Commands.dfy | `QMultiHash`, the job record, an option type, string splitting, path cleaning, outcomes of external commands |
| Codec.dfy, CodecFormat.dfy, CodecTheorems.dfy, DataStream.dfy | the job's stream operators: encoding and decoding, byte format, theorems, and the operators as methods over a stream |
| SshTargets.dfy, JobTree.dfy, JobStore.dfy | saving and loading of jobs, the grouping of SSH targets, the directory tree that job files live in, the file store over it |
| Calendar.dfy, Scheduler.dfy | the civil calendar and the scheduler over whole runs of ticks |
| Manager.dfy | backup manager, worker threads and queued signals as interleaved steps |
| Mount.dfy, Legs.dfy, BackupRun.dfy, RunLaws.dfy | one run on a target: the life cycle of mount and LUKS mapping, the transfers with their messages and logs, the run as the program makes it, and what its specification means |
| PbsStaging.dfy | one PBS virtual machine: choice of snapshot, staging, packaging, clean-up |
| Substitution.dfy | the mount directory token, both ways |
| SshClient.dfy | shell quoting against a shell tokeniser, the listing parser |
| Confine.dfy | confinement of script paths |
| Fingerprint.dfy | certificate fingerprints |

## How the model reads the source

- A `QMultiHash` maps a key to its values, newest first. The order of the keys is unspecified in Qt, so every
  theorem holds for an arbitrary listing, and loops over a hash pick the next key nondeterministically.
- A stream reader is total, as Qt's is: past the end every read gives a default value and sets the status; a
  string of odd byte length sets another one. Qt versions differ on a list count of 0xFFFFFFFF; both readings are
  covered. The byte layout is that of `QDataStream` version Qt_5_7, which
  config.h.in fixes. Null and empty strings are equal but written differently; both are covered.
- How each external command goes is a parameter: whether it left an exit code, which one, and its effect where that
  does not settle it. A program that could not be started or was given up leaves none; `QProcess::exitCode`
  then reads 0, and the source checks nothing else, so the model reads 0 too. The code of `mount` and `umount` need
  not agree with what they did, and a `cryptsetup` that ends with another code than 0, say because it was killed, may
  have done its work or not. Three facts about the system are built in: a LUKS device can be mounted only while
  its mapping is open; a `cryptsetup` that ends with 0 has done its work; and `luksOpen` does not end with 0 if the
  mapping exists. Nothing is built in that protects the mapping of a mounted device: closing requires an unmounted
  target, and the program has to establish that. While a leg runs, anybody may mount or release the target.
- Job files live in a tree of files and directories. `QFile` takes a raw path and needs every directory on the way;
  `QSettings` cleans the path and makes missing directories. What the file system grants beyond that (a removal,
  new directories down to some depth, a write) is a parameter of each operation.
- Clock readings, host key staging, the server list, script checks, file system answers and Unicode tables are
  parameters.
- `shouldRun` takes whole seconds and a fixed offset from UTC. That the daemon records each firing as the last
  run is an assumption on the driver, since the daemon is not part of this repository.

## What the proofs show about the code

- tibackupscheduler.h says that a grace window longer than the tick interval keeps a running daemon from missing
  its own slot. The slot is always taken from today's date, so the window also ends at midnight. The exact bound
  on the tick gap is the smaller of grace + 1 and the seconds from slot to midnight: 60 seconds suffice for every
  slot, 61 seconds miss 23:59 (`WindowIsExact`, `DefaultGrace`).
- A path does not always survive the trip through its generic form. It does exactly if no scan position spells
  the token; a path without the token can still collide, because the token starts and ends with the same
  character (`PathRoundTrip`, `MarkerBeforeMountDir`).
- A failed run leaves the LUKS mapping open exactly if it was open before or the run opened it (`FailedRun`). An
  open mapping without a mount then makes every later run fail in which `luksOpen` completes; the input is
  an opening that succeeds and a mount that ends with exit code 32 (`FailedMountBlocks`, `StuckForever`).
- `umountPartition` reports a free target whose mapping is still open exactly if the mapping was open and the closing
  was given up without effect (`ReleaseOutcome`, `UnfinishedCloseIsReportedFree`).
- If the mount command reports an error although the mount took, the run goes on with an empty mount directory, so
  the token in a destination is replaced by nothing (`UncleanMountGoesOn`, `StartBackup`).
- PBS downloads that never start do not count as failures: the old archive is then deleted although nothing arrived
  (`UnstartedDownloadsPass`, `BackupVm`).
- The newest-snapshot loop starts from time 0, so it is right exactly if some time is positive or the first
  snapshot is a newest one (`NewestSnapshot`).
- Config files that arrived, other than the last one, stay behind after the clean-up (`BackupVm`).
- Saving one job can take another one away: exactly if their names lead to the same file, as `b` and `./b` do; names
  without slashes never do (`SaveThenFindOther`, `NamesAreIndependent`).
- A saved job is found under its name exactly if the save took effect and its file lies in the jobs directory and is
  not hidden (`SaveThenFind`). A save takes effect exactly if the file system grants it, no directory has the file's
  name and no file stands on the way. After a job `x.conf/y` the job `x` cannot be saved, and a job without a name
  appears (`DirectoryBlocks`, `SaveThenFindNameless`). Neither happens for names without `..` components in which
  no component but the last ends in `.conf` (`TameRuns`).
- The old file is removed before the new one is written, so a refused write loses the job saved before
  (`SaveOutcome`, `SaveThenFind`).
- A name that climbs out of a missing directory can be saved but not removed (`ClimbingPath`).
- A scripts directory `/` admits only `/` itself (`InsideIsPrefix`).

## Model

| member | source | states |
|---|---|---|
| `MultiHashes.Iterate` | obj/tibackupjob.cpp:236 | a pass over a hash visits, for every key, exactly its values, newest first, whatever the order of the keys |
| `MultiHashes.ReinsertReverses` | obj/tibackupjob.cpp:1027-1032 | inserting any listing of a hash into an empty one reverses the values of each key and nothing else |
| `MultiHashes.ReverseEachTwice` | obj/tibackupjob.cpp:1027-1032 | two such trips restore the hash |
| `MultiHashes.ListingsArePermutations` | obj/tibackupjob.cpp:989-990 | two iterations of one hash visit the same pairs equally often |
| `Jobs.ReversedIsSame` | obj/tibackupjob.h:68-86 | reversing the values of every folder key keeps the job equal as multisets of (source, destination), and doing it twice is the identity |
| `Codec.GetPutText` | obj/tibackupjob.cpp:985 | a written string, null or not, is read back with the bytes behind it left alone |
| `Codec.GetPutPairs` | obj/tibackupjob.cpp:989-990 | the counted pair loop reads back the insertion of all written pairs |
| `Codec.GetPutTargets` | obj/tibackupjob.cpp:1005-1012 | the nested loops over SSH targets read back the same targets in order |
| `Codec.GetPutBody` | obj/tibackupjob.cpp:985-1012 | everything before the trailing flag reads back, in any object and before any bytes |
| `CodecTheorems.RoundTrip` | obj/tibackupjob.cpp:983-1076 | for every job that fits, every written form, target object and suffix: the read job is the written one with only value order reversed, and exactly the suffix is left |
| `CodecTheorems.TwoRoundTrips` | obj/tibackupjob.cpp:983-1076 | two trips restore the job exactly |
| `CodecTheorems.RoundTripMany` | obj/tibackupjob.cpp:983-1076 | any concatenation of written jobs reads back as the same list |
| `CodecTheorems.PrefixFree` | obj/tibackupjob.cpp:983-1018 | equal bytes, even followed by different ones, come from equal jobs |
| `CodecTheorems.OldStream` | obj/tibackupjob.cpp:1071-1073 | a job without the trailing flag reads intact, the flag keeping its value in the object, exactly if it ends the stream; else the next byte is taken for the flag |
| `CodecTheorems.TruncationIsReported` | obj/tibackupjob.cpp:1020-1076 | a written job cut anywhere leaves an error status, except when cut just before the flag |
| `CodecTheorems.MissingBytes` | obj/tibackupjob.cpp:1026-1034 | a number or flag of which bytes are missing reads as 0 or false, consumes the rest and sets the status, but never over an earlier error |
| `CodecTheorems.BadText` | obj/tibackupjob.cpp:1022 | a string that cannot be read is empty; odd byte counts and missing bytes are told apart in the status |
| `CodecTheorems.BadTexts` | obj/tibackupjob.cpp:1049 | a list with an unreadable string is empty as a whole, and an earlier error stays |
| `CodecFormat.JobFormat` | obj/tibackupjob.cpp:985-1015 | a job is written as its 28 fields in this order, with nothing between them |
| `CodecFormat.SharedPrefix` | obj/tibackupjob.cpp:985-1015 | jobs that agree in their first fields agree in the bytes of those fields |
| `CodecFormat.Primitives` | obj/tibackupjob.cpp:988 | numbers take four bytes, big-endian, in two's complement; flags are one byte; a null string is -1 |
| `CodecFormat.TextFormat` | obj/tibackupjob.cpp:985 | a string is its byte count and its UTF-16 units, big-endian |
| `DataStreams.ViewJob` | obj/tibackupjob.cpp:983-1018 | every job has a written form |
| `DataStreams.DataStream.WriteJob` | obj/tibackupjob.cpp:983-1018 | the output operator appends one written form of the object, and changes nothing else |
| `CodecTheorems.ShownFits` | obj/tibackupjob.cpp:983-1018 | every written form of a job whose texts, lists and folder maps fit the fields can be written |
| `DataStreams.DataStream.WriteDirs` | obj/tibackupjob.cpp:988-990 | count and pairs are appended in iteration order |
| `DataStreams.DataStream.WriteTargets` | obj/tibackupjob.cpp:1005-1012 | count and targets are appended in order |
| `DataStreams.DataStream.ReadDirs` | obj/tibackupjob.cpp:1024-1032 | the counted insert loop computes the decoded hash on every input, with any count and any truncation |
| `DataStreams.DataStream.ReadTargets` | obj/tibackupjob.cpp:1053-1069 | the nested loops compute the decoded targets on every input |
| `DataStreams.DataStream.ReadJob` | obj/tibackupjob.cpp:1020-1076 | the input operator changes object and stream as the decoding function says, on every input |
| `SshTargets.Save` | ticonf.cpp:284-295 | the nested loops write the entries of every target, in order: each (server, source) with its destinations as iterated, and no other |
| `SshTargets.Load` | ticonf.cpp:383-404 | the loop with the hash index computes the same as linear searches; at each step the index holds exactly the servers seen and points where a search would |
| `SshTargets.SaveLoad` | ticonf.cpp:281-404 | the loaded targets have distinct servers, none is empty, servers come in order of first appearance, and each (server, source) has its destinations in reverse order |
| `SshTargets.SaveLoadConserves` | ticonf.cpp:281-404 | the multiset of (server, source, destination) triples is conserved |
| `SshTargets.OrderDoesNotMatter` | ticonf.cpp:281-404 | the loaded targets do not depend on the iteration orders met while saving |
| `SshTargets.SaveLoadIdentity` | ticonf.cpp:281-404 | loading gives the list back, up to value order, exactly if servers were distinct and no target empty |
| `SshTargets.SaveLoadIdempotent` | ticonf.cpp:281-404 | a second trip only reverses value order, a third equals the first |
| `JobTrees.SaveOutcome` | ticonf.cpp:218-309 | for every tree and every refusal: the new file is there exactly if the save took effect, else the old one is lost exactly if it was removed; no other file changes, no directory goes |
| `JobTrees.RefusedWrite` | ticonf.cpp:225-309 | a refused write never brings the new file, and loses the old one exactly if it was reached and removed |
| `JobTrees.PlainPath` | ticonf.cpp:320-326 | a name without slashes has its file in the jobs directory, listed exactly if the name is neither empty nor starts with a dot |
| `JobTrees.DotSlashPath` | ticonf.cpp:220 | `./` in front of a name leads to the same file |
| `JobTrees.ClimbingPath` | ticonf.cpp:456-459 | `dir/../` in front of a name leads to the same file, which is reached for removal exactly if `dir` exists |
| `JobTrees.SubdirectoryPath` | ticonf.cpp:220-223 | a name in a sub-directory is never listed |
| `JobTrees.TameName` | ticonf.cpp:220-228 | a name without `..` and without `.conf` before its last component leads below the jobs directory, and is reached if its file is there |
| `JobTrees.TameIsFree` | ticonf.cpp:220-228 | nothing blocks such a name while no directory is named like a job file |
| `JobStores.JobStore.SaveBackupJob` | ticonf.cpp:218-313 | the store goes on refining the tree, now as the save leaves it, for every name and every refusal |
| `JobStores.JobStore.ReadBackupJobs` | ticonf.cpp:315-421 | one job for each visible `.conf` entry, in the order met: as last saved for a file, nameless for a directory |
| `JobStores.JobStore.ReadJobFile` | ticonf.cpp:333-417 | the loops load what the file holds |
| `JobStores.JobStore.GetJobs` | ticonf.cpp:423-427 | returns such a reading |
| `JobStores.JobStore.GetJobByName` | ticonf.cpp:443-454 | finds a job exactly if the one last saved at the name's path bears that name and is listed, and then that one, up to the loaded form; for the empty name a nameless one, exactly if there is one |
| `JobStores.JobStore.GetJobsByUuid` | ticonf.cpp:429-441 | exactly the jobs of the partition, in the order of the reading |
| `JobStores.JobStore.RemoveJobByName` | ticonf.cpp:456-459 | removes the file at the name's path only, exactly if it is a file that is reached and the removal is granted, and reports that |
| `JobStores.JobStore.Run` | ticonf.cpp:218-459 | after any sequence of saves and removals the store refines the replayed tree |
| `JobStores.JobStore.SaveThenFind` | ticonf.cpp:218-454 | a save that takes effect is found under its name exactly if its file is listed; else the name yields what it did, or nothing if the old file was removed |
| `JobStores.JobStore.SaveThenFindOther` | ticonf.cpp:218-454 | a save takes away the job of exactly those other names that share its file, if it takes effect or removes the old file |
| `JobStores.JobStore.SaveThenFindNameless` | ticonf.cpp:218-454 | a nameless job is found exactly if a directory is, or by this save becomes, named like a job file |
| `JobStores.JobStore.RemoveThenFind` | ticonf.cpp:443-459 | a removal takes away the job of exactly the names that share its file, if it succeeds |
| `JobStores.NamesApart` | ticonf.cpp:315-421 | two jobs of a reading share a name only if both are nameless |
| `JobStores.LastOpWins` | ticonf.cpp:218-459 | in a replay the last operation on a file decides what it holds |
| `JobStores.UntouchedStays` | ticonf.cpp:218-459 | operations on other files leave what a name yields alone |
| `JobStores.NamesAreIndependent` | ticonf.cpp:220-228 | saving under one name leaves another alone, in every store, exactly if their files differ; names without slashes never share a file |
| `JobStores.TameIsWritten` | ticonf.cpp:218-309 | a save under a tame name takes effect if the file system grants it |
| `JobStores.TameRuns` | ticonf.cpp:218-459 | for tame names, on a file system that grants everything, any sequence of operations acts as on a plain map of paths, and no nameless job appears |
| `JobStores.DirectoryBlocks` | ticonf.cpp:225-228 | after saving `n.conf/y` a save of `n` fails even if everything is granted, and a nameless job appears |
| `JobStores.OfPartitionSpec` | ticonf.cpp:434-438 | the partition filter keeps every matching job as often as it occurs and no other |
| `JobStores.LoadFileSpec` | ticonf.cpp:331-419 | every file that saving a job may leave loads as that job, up to the loaded form |
| `JobStores.LoadsAsUnique` | ticonf.cpp:218-421 | the loaded form is unique, and is the job up to value order exactly if its SSH targets were canonical |
| `Calendar.SameDayOfMonth` | tibackupscheduler.cpp:46-49 | the same day of the month comes back after 28 days at the earliest |
| `Calendar.DateOfIsCivil` | tibackupscheduler.cpp:46-49 | the date of a day is the one valid date with its closed Gregorian day count |
| `Calendar.WeekdayIsCivil` | tibackupscheduler.cpp:43 | the weekday of a day is that of its date by the closed congruence in year, month and day, counted from Monday |
| `Scheduler.SlotTimeSpells` | tibackupscheduler.cpp:32-34 | a text is a slot exactly if it spells a time of day as hh:mm, and then it is that time |
| `Scheduler.ShouldRunExactly` | tibackupscheduler.cpp:26-65 | a job runs exactly if it has an interval and a slot, the local date has its weekday or day of the month, the local time lies in the grace window, and the slot is later than the last run |
| `Scheduler.SlotTime` | tibackupscheduler.cpp:32-34 | a valid slot time is a whole minute of the day, 23:59 at the latest |
| `Scheduler.FiresInSlot` | tibackupscheduler.cpp:26-65 | a firing lies in the grace window of a slot due that day, after the last run, and becomes the last run; for a weekly job the civil weekday of the date is the given one, for a monthly job its day |
| `Scheduler.FiringSpacing` | tibackupscheduler.cpp:38-64 | for any clock readings: later firings belong to later slots and later times, at least 1, 7 or 28 days less the grace apart, on days that have a slot |
| `Scheduler.EverySlotOnce` | tibackupscheduler.cpp:54-64 | if ticks are no further apart than the window, each due slot passed over fires once, at the first tick from it on |
| `Scheduler.LongerGapMisses` | tibackupscheduler.cpp:54-64 | with any longer gap some run of ticks passes over the slot without firing |
| `Scheduler.WindowIsExact` | tibackupscheduler.cpp:54-64 | every steady run over a slot fires it once, exactly if the tick gap is at most the smaller of grace + 1 and the seconds from slot to midnight |
| `Scheduler.DefaultGrace` | tibackupscheduler.h:44-47 | with the default grace 60 s suffice for every slot, and 61 s for every slot but 23:59 |
| `Manager.StepKeepsInv` | backupmanager.cpp:20-61 | every step keeps, for every name, the agreement of status, workers and signals |
| `Manager.ReachableIsConsistent` | backupmanager.cpp:20-61 | in every reachable state: running exactly if one worker or one undelivered signal exists, otherwise none; signals alternate running and finished or failed; the status is the last signal |
| `Manager.SignalsTellOutcomes` | backupmanager.cpp:56-61 | in every run: after the k-th running signal of a name comes finished exactly if its k-th worker found the job and its backup returned true, else failed; all other ended workers are queued |
| `Manager.NoOverlap` | backupmanager.cpp:29-36 | two workers never overlap on one name, nor a worker with an undelivered signal |
| `Manager.WorkDecreases` | workers/tibackupjobworker.cpp:40-66 | every step of a worker or of the event loop reduces the work left |
| `Manager.IdleMeansDone` | backupmanager.cpp:56-61 | nothing is in flight exactly if no job is running |
| `Manager.WorkerMatchesMachine` | workers/tibackupjobworker.cpp:40-66 | a worker's steps queue exactly one signal, the one `process` emits |
| `Manager.JobWorker.Process` | workers/tibackupjobworker.cpp:40-66 | exactly one signal on every path, true only for a found job whose backup succeeded |
| `Manager.StartBackupThread` | obj/tibackupjob.cpp:72-88 | the worker set going for a name emits one signal, true only if a job of that name is found and its backup succeeds |
| `Manager.BackupManager.StartBackup` | backupmanager.cpp:20-44 | accepted exactly if the job exists and nothing is in flight for it; then one running signal and one worker, else nothing changes |
| `Manager.BackupManager.OnBackupFinished` | backupmanager.cpp:56-61 | records and signals the outcome; status and signals of all other names stay |
| `Manager.BackupManager.GetBackupStatus` | backupmanager.cpp:51-54 | running exactly if something is in flight |
| `Manager.BackupManager.WorkerLookup` | obj/tibackupjob.cpp:72-88 | a started thread's worker makes the lookup step, also when its job has vanished |
| `Manager.BackupManager.DeliverNext` | obj/tibackupjob.cpp:85-86 | the oldest queued signal is taken; its name is finished exactly if it carried true, else failed; other names stay |
| `Manager.BackupManager.Drain` | obj/tibackupjob.cpp:72-88 | workers and event loop, in any order, come to rest, and then no job is running |
| `Mounting.MountOutcome` | tibackuplib.cpp:239-298 | mounting ends mounted exactly if it was or the mount takes; success is reported exactly if it is mounted then and no command reported an error; the mapping is open exactly if it was or this call opened it |
| `Mounting.ReleaseOutcome` | tibackuplib.cpp:300-328 | success is reported exactly for an unmounted target after commands without a reported error; the mapping is then closed except when an open one's closing was given up without effect; a target still mounted keeps its mapping |
| `Mounting.GuardOutcome` | obj/tibackupjob.cpp:129-148 | the guard passes exactly if the target was mounted or the mount takes, ends with the look that decides, and makes no leg and no release; a mounted target is left alone |
| `Mounting.FailedRun` | obj/tibackupjob.cpp:129-148 | a failed run ran no leg, released nothing, leaves the target unmounted, and the mapping open exactly if it was or this run opened it |
| `Mounting.EveryRun` | obj/tibackupjob.cpp:129-980 | every leg follows a look that found the target mounted; every closing directly follows a clean unmount and a look that found it free; nothing is released unless configured; mounted implies mapping open |
| `Mounting.ReleasedRun` | obj/tibackupjob.cpp:964-972 | a run releases exactly if it passed its guard, should, and no command reported an error; then the target is unmounted and, if the closing completed, its mapping closed; without release it stays as the legs left it |
| `Mounting.LegInTrace` | obj/tibackupjob.cpp:150-852 | the legs stand in the trace in order, right after the guard, with their exit codes |
| `Mounting.RunsStayPossible` | obj/tibackupjob.cpp:90-981 | mounted implies mapping open after every sequence of runs |
| `Mounting.StuckRun` | tibackuplib.cpp:278-284 | with an open mapping and no mount a run succeeds exactly if the opening was given up and the mount took; else the target stays as it was |
| `Mounting.StuckForever` | tibackuplib.cpp:278-284 | from there every run of any sequence fails if its openings complete |
| `Mounting.FailedMountBlocks` | tibackuplib.cpp:278-295 | the state is reached: opening with 0, mounting with 32, and no later run succeeds |
| `BackupRuns.BackupRun.MountPartition` | tibackuplib.cpp:239-298 | target and steps are those of the mount specification; the mount directory exactly if it reports success |
| `BackupRuns.BackupRun.UmountPartition` | tibackuplib.cpp:300-328 | target, steps and report are those of the release specification; the mapping is only ever closed on an unmounted target |
| `BackupRuns.BackupRun.SecureMount` | obj/tibackupjob.cpp:129-148 | target, steps and result are those of the guard; the directory is the mount table's for a mounted target, the own one exactly if the mount took and was reported, else empty |
| `BackupRuns.BackupRun.RunRsync` | obj/tibackupjob.cpp:265-307 | one leg and one log entry with its route, log path and exit code |
| `BackupRuns.BackupRun.RunPairs` | obj/tibackupjob.cpp:236-308 | one log entry per folder pair, in order, with expanded destination and the exit code of its own leg |
| `BackupRuns.BackupRun.RunTarget` | obj/tibackupjob.cpp:317-427 | a usable target adds one entry per pair, a skipped one exactly one message |
| `BackupRuns.BackupRun.RunSsh` | obj/tibackupjob.cpp:313-429 | the entries and messages of all targets, in order |
| `BackupRuns.BackupRun.RunScript` | obj/tibackupjob.cpp:153-232 | a script is run exactly if it is confined, staged and has a user, and leaves exactly one message |
| `BackupRuns.BackupRun.RunLegs` | obj/tibackupjob.cpp:150-852 | scripts, transfers and PBS items in order; entries and messages are those planned, each entry with its leg's exit code |
| `BackupRuns.BackupRun.StartBackup` | obj/tibackupjob.cpp:90-981 | target, trace and results are those of the run specification for the legs the job asks for; the mount directory is the own one exactly if the mount took and was reported; log list and messages say which legs they were |
| `BackupRuns.LogOfLeg` | obj/tibackupjob.cpp:291-307 | the log entry of each rsync call carries the exit code of its own leg in the trace |
| `RunLaws.LegOrder` | obj/tibackupjob.cpp:150-852 | legs come in the order script, rsync, PBS, script, as many of each kind as the job asks for |
| `RunLaws.RouteAt` | obj/tibackupjob.cpp:236-427 | where each transfer goes: local pairs first, then `user@host:folder` of each usable target, each to its expanded destination |
| `RunLaws.MessagesMean` | obj/tibackupjob.cpp:150-350 | first and last message are the scripts', reporting success exactly if leg 0, or the last leg, ran the script and returned 0; between them one for each skipped target |
| `RunLaws.NoSetupNoCommand` | tibackuplib.cpp:253-287 | a run opens LUKS exactly if the target is not mounted and the job has a setup with its key file; else it fails without any command |
| `Legs.ScriptMessageMeans` | obj/tibackupjob.cpp:153-232 | one message exactly if the job has the script; it reports success exactly if the script ran and returned 0, a failure exactly if it ran and returned something else |
| `Legs.ScriptRefusal` | obj/tibackupjob.cpp:153-232 | why a script did not run: outside its directory, not staged, or without its user, in this precedence |
| `Legs.SkipReason` | obj/tibackupjob.cpp:317-350 | what is wrong with a skipped target: unknown server, no pinned key, or no staged key file, in this precedence |
| `Legs.SshRouteAt` | obj/tibackupjob.cpp:356-427 | the place and route of each pair of each usable target |
| `Legs.OneMessagePerSkipped` | obj/tibackupjob.cpp:315-350 | there are as many messages as targets without a known server, a pinned key or a staged key file |
| `Legs.OneLegPerPair` | obj/tibackupjob.cpp:356-427 | there are as many transfers as folder pairs of the other targets |
| `Legs.PathsDistinct` | obj/tibackupjob.cpp:275 | archived log files of one run have distinct names, even within one second |
| `Legs.LogPathInjective` | obj/tibackupjob.cpp:393-394 | a log path determines its time stamp and index |
| `Legs.LogPathReads` | obj/tibackupjob.cpp:275 | a log lies in the log directory under its stamp and its index in decimal |
| `PbsStaging.NewestSnapshot` | obj/tibackupjob.cpp:500-509 | the first newest snapshot, exactly if some time is positive or the first is a newest one |
| `PbsStaging.StagedAdds` | obj/tibackupjob.cpp:524-544 | one more file name adds its stem to the staged list exactly if that ends in `.conf`, `.pxar` or `.img`; the config is the last `.conf`, the images are the others |
| `PbsStaging.StagedSkips` | obj/tibackupjob.cpp:524-544 | names without a dot, or with a newline before the last one, add nothing |
| `PbsStaging.ErrorKeepsArchives` | obj/tibackupjob.cpp:576-602 | an error code or a missing key file leaves all files but the staged ones, so the old archives |
| `PbsStaging.SuccessReplacesArchives` | obj/tibackupjob.cpp:617-645 | otherwise no archive is left but the one the pipeline created |
| `PbsStaging.ArchiveFilter` | obj/tibackupjob.cpp:617-621 | the filter takes `vzdump-qemu-` names in either letter case and no `vzdump-lxc-` ones |
| `PbsStaging.ArchiveNameParts` | obj/tibackupjob.cpp:624 | the archive's name holds machine and time |
| `PbsStaging.VmDirectory.Download` | obj/tibackupjob.cpp:517-592 | config and images are those of the list; nothing but staged names changes; a staged file is there exactly if its last restore left it; it fails exactly if an exit code says so or the key file is missing |
| `PbsStaging.VmDirectory.Restore` | obj/tibackupjob.cpp:547-579 | called only for a name that is free; the file is there afterwards exactly if the client left it, and the exit code of a client that did not finish reads 0 |
| `PbsStaging.CompletedDownloadsArrive` | obj/tibackupjob.cpp:576-589 | if every download completed and none failed, every staged file is there |
| `PbsStaging.UnstartedDownloadsPass` | obj/tibackupjob.cpp:576-579 | downloads that never started do not fail although nothing arrives |
| `PbsStaging.VmDirectory.Package` | obj/tibackupjob.cpp:616-645 | old archives go, at most the new one comes, other files stay |
| `PbsStaging.VmDirectory.CleanUp` | obj/tibackupjob.cpp:717-731 | removes the config file and the images and nothing else |
| `PbsStaging.VmDirectory.BackupVm` | obj/tibackupjob.cpp:517-731 | a failed download leaves all other files, so the old archive; otherwise no archive but the new one is left, unrelated files are unchanged, and staged files are gone exactly if each config file that arrived is the last one or carries an archive name |
| `PbsStaging.VmDirectory.BackupItem` | obj/tibackupjob.cpp:497-732 | the same for the snapshot chosen, which is the first newest one exactly under the condition of the loop, and under that snapshot's time; without snapshots nothing changes |
| `PbsStaging.ArchiveNameFacts` | obj/tibackupjob.cpp:619-624 | the new archive matches the clean-up filter and is never a staged file |
| `Substitution.TokenMeans` | tibackuplib.cpp:579-594 | expanding puts the mount directory where `%MNTBACKUPDIR%` stands, generalising does the reverse; other texts stay, and without a mount directory nothing is generalised |
| `Substitution.FirstOccurrence` | tibackuplib.cpp:579-594 | the first occurrence is replaced and the scan goes on behind it |
| `Substitution.RoundTripIff` | tibackuplib.cpp:579-594 | replacing and replacing back restores a text exactly if no position passed over spells the inserted text |
| `Substitution.NoMarkerNoCollision` | tibackuplib.cpp:579-594 | a text without the inserted text less its longest border cannot collide |
| `Substitution.PathRoundTrip` | tibackuplib.cpp:579-594 | path to generic and back, exactly when; the absence of `%MNTBACKUPDIR` suffices |
| `Substitution.GenericRoundTrip` | tibackuplib.cpp:579-594 | generic to path and back, exactly when; a borderless mount directory absent from the text suffices |
| `Substitution.EmptyMountDir` | tibackuplib.cpp:581-582 | without a mount directory the trip restores exactly the paths without the token |
| `Substitution.MarkerBeforeMountDir` | config.h.in:55 | a family of paths without the full token that the trip does not restore |
| `Substitution.BorderBreaksGeneric` | tibackuplib.cpp:579-594 | a mount directory with a border for which the way back fails |
| `SshClient.QuotedIsOneWord` | sshclient.cpp:32-37 | in any template of plain words the shell reads a quoted text as one last word, exactly if it is free of NUL |
| `SshClient.ListCommandWords` | sshclient.cpp:181-189 | the listing command's words are `ls`, `-1Ap`, `--` and the path, or `/` for an empty one |
| `SshClient.MkdirCommandWords` | sshclient.cpp:238-260 | the directory command's words are `mkdir`, `--` and the path; an empty path is refused |
| `SshClient.ListDir` | sshclient.cpp:202-221 | the loop computes the parsed entries |
| `SshClient.ListingRoundTrip` | sshclient.cpp:202-221 | a printed list of entries is parsed back, exactly if each name is non-empty, without newline and, for files, without final slash |
| `SshClient.ListingIsStable` | sshclient.cpp:202-221 | parsed entries survive printing and parsing, whatever was received |
| `Confinement.CleanRendered` | tibackuplib.cpp:556-559 | a cleaned path is left alone by cleaning |
| `Confinement.InsideIsPrefix` | tibackuplib.cpp:569-574 | the string test means that the base's components come first in the path's, except for the base `/` |
| `Confinement.ConfinedIsInside` | tibackuplib.cpp:545-577 | a result is a cleaned path whose components extend the base's, and confining it again returns it |
| `Confinement.ConfineExactly` | tibackuplib.cpp:545-577 | there is a result exactly if the canonical path of an existing input lies in the canonical base, and then it is that path; an input that does not exist is judged by its cleaned path |
| `Confinement.PathsResolve` | tibackuplib.cpp:555-559 | a relative scripts directory is resolved from the working directory, a relative input from the scripts directory, part by part |
| `Confinement.BareName` | tibackuplib.cpp:555-576 | a bare name that does not exist is the file of that name in the scripts directory |
| `Confinement.ClimbingOut` | tibackuplib.cpp:555-576 | a name behind `../` that does not exist is refused |
| `Fingerprints.NormalizeFingerprint` | pbsclient.cpp:69-77 | the loop keeps the letters and digits, upper-cased, in order |
| `Fingerprints.SeparatorsVanish` | pbsclient.cpp:69-77 | characters that are no letters or numbers vanish, the others become upper-case |
| `Fingerprints.FingerprintMatches` | pbsclient.cpp:85-96 | true exactly if the normalised fingerprints are equal and not empty |
| `Fingerprints.NormalizedFormat` | pbsclient.cpp:79-83 | every style of a digest normalises to its upper-case hexadecimal digits |
| `Fingerprints.DigestsMatch` | pbsclient.cpp:69-96 | two digests in any letter case and separators match exactly if their bytes are equal and not empty |

## Left out

- JobTrees.PathOf: no symbolic links; the jobs directory is an absolute path that exists or can be made.
- Files in the tree that are no job files, changes to it by others while the store is open, and its file permissions.
- DataStreams.DataStream.WriteJob: asks that sizes fit the field widths; beyond them Qt truncates counts or sets an error, depending on its version.
- Scheduler.SlotTime: covers the plain `hh:mm` form with ASCII digits, not locale-dependent readings.
- BackupRuns.BackupRun.StartBackup: whether the target is mounted is one flag, not the text of the mount table, and nobody else touches the target between two commands of one mount or release.
- PBS containers (type `ct`): staged directories, `tar` and removal of trees follow the pattern of virtual machines.
- PBS item parsing, authentication, key files on disk and log entries; a failed download also skips the item's log entry, so no claim is made that a mail reporting PBS as fine implies success.
- rsync option lists (FAT detection, `--delete`, `--checksum`), detail logs and mail text.
- The contents of pre- and post-scripts.
- Creation and removal of the mount directory, the passphrase handed to cryptsetup, and further mounts on one target.
- That a failed mount closes the LUKS mapping: it does not.
- Two differently named jobs on one partition: the manager serialises by name only.
- `renameJob`, which moves a file without rewriting the name stored in it.
- Stores and stream operators of PBS servers, SSH servers and partitions, which repeat simpler forms of the job's.
- INI escaping, process execution, udev, SMTP and HTTP.
- Time zone changes and daylight saving.
- Characters in the text modules are Unicode scalar values; the codec works on UTF-16 code units.
- Stream transactions and device errors other than a premature end.
