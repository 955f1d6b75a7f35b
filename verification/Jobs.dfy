/** The backup job record, over a string type `S` and a representation `D` of a folder map. */
module Jobs {
  import opened MultiHashes

  type Int32 = x: int | -0x8000_0000 <= x < 0x8000_0000

  // `tiBackupJobInterval` and `tiBackupEncLUKS`. A cast from a stored number is unchecked, so a
  // job may hold any 32-bit value.
  const INTERVAL_NONE: Int32 := 0
  const INTERVAL_DAILY: Int32 := 1
  const INTERVAL_WEEKLY: Int32 := 2
  const INTERVAL_MONTHLY: Int32 := 3
  const LUKS_NONE: Int32 := 0
  const LUKS_FILE: Int32 := 1
  const LUKS_GENUSBDEV: Int32 := 2

  datatype TargetOf<S, D> = Target(server: S, dirs: D)

  datatype JobOf<S, D> = Job(
    name: S, device: S, partitionUuid: S,
    backupdirs: D,
    deleteAdditional: bool, startOnHotplug: bool, saveLog: bool, compareChecksum: bool,
    umountAfter: bool,
    notify: bool, notifyRecipients: S,
    scriptBefore: S, scriptAfter: S,
    intervalType: Int32, intervalTime: S, intervalDay: Int32,
    luksType: Int32, luksFile: S,
    pbs: bool, pbsServer: S, pbsStorage: S, pbsIds: seq<S>, pbsDest: S,
    ssh: bool, sshTargets: seq<TargetOf<S, D>>)

  /** The job with its folder maps replaced, possibly by another representation. */
  function WithDirs<S, D, E>(j: JobOf<S, D>, dirs: E, targets: seq<TargetOf<S, E>>): JobOf<S, E> {
    Job(j.name, j.device, j.partitionUuid, dirs,
        j.deleteAdditional, j.startOnHotplug, j.saveLog, j.compareChecksum, j.umountAfter,
        j.notify, j.notifyRecipients, j.scriptBefore, j.scriptAfter,
        j.intervalType, j.intervalTime, j.intervalDay, j.luksType, j.luksFile,
        j.pbs, j.pbsServer, j.pbsStorage, j.pbsIds, j.pbsDest, j.ssh, targets)
  }

  // ----- Jobs and targets up to the order of the values of a folder key -----

  function ReversedTargets<S(==)>(ts: seq<TargetOf<S, MultiHash<S, S>>>): (r: seq<TargetOf<S, MultiHash<S, S>>>)
    ensures |r| == |ts|
    ensures forall i :: 0 <= i < |ts| ==> r[i] == ts[i].(dirs := ReverseEach(ts[i].dirs))
  {
    if ts == [] then [] else [ts[0].(dirs := ReverseEach(ts[0].dirs))] + ReversedTargets(ts[1..])
  }

  /** The job with the values of every folder key in the opposite order. */
  function Reversed<S(==)>(j: JobOf<S, MultiHash<S, S>>): JobOf<S, MultiHash<S, S>> {
    j.(backupdirs := ReverseEach(j.backupdirs), sshTargets := ReversedTargets(j.sshTargets))
  }

  ghost predicate SameTargets<S(!new)>(ts: seq<TargetOf<S, MultiHash<S, S>>>, us: seq<TargetOf<S, MultiHash<S, S>>>) {
    && |ts| == |us|
    && forall i :: 0 <= i < |ts| ==> ts[i].server == us[i].server && SamePairs(ts[i].dirs, us[i].dirs)
  }

  /** Equal jobs, folder maps being compared as multisets of (source, destination). */
  ghost predicate SameJob<S(!new)>(j: JobOf<S, MultiHash<S, S>>, k: JobOf<S, MultiHash<S, S>>) {
    && k == j.(backupdirs := k.backupdirs, sshTargets := k.sshTargets)
    && SamePairs(j.backupdirs, k.backupdirs)
    && SameTargets(j.sshTargets, k.sshTargets)
  }

  lemma ReversedTargetsTwice<S(!new)>(ts: seq<TargetOf<S, MultiHash<S, S>>>)
    ensures SameTargets(ts, ReversedTargets(ts))
    ensures ReversedTargets(ReversedTargets(ts)) == ts
  {
    forall i | 0 <= i < |ts|
      ensures SamePairs(ts[i].dirs, ReverseEach(ts[i].dirs))
      ensures ReverseEach(ReverseEach(ts[i].dirs)) == ts[i].dirs
    {
      ReverseEachSamePairs(ts[i].dirs);
      ReverseEachTwice(ts[i].dirs);
    }
    assert ReversedTargets(ReversedTargets(ts)) == ts;
  }

  lemma ReversedIsSame<S(!new)>(j: JobOf<S, MultiHash<S, S>>)
    ensures SameJob(j, Reversed(j))
    ensures Reversed(Reversed(j)) == j
  {
    ReverseEachSamePairs(j.backupdirs);
    ReverseEachTwice(j.backupdirs);
    ReversedTargetsTwice(j.sshTargets);
  }
}
