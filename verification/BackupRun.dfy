/** One run of a backup job on its target partition, as the program makes it: mounting, scripts, the rsync
    legs, PBS items, and releasing the target. */
module BackupRuns {
  import opened MultiHashes
  import opened Jobs
  import opened Substitution
  import opened Commands
  import opened Mounting
  import opened Legs
  import SshTargets
  import JobStores

  type Job = JobStores.Job

  /** The configuration of a run and everything that its surroundings answer. `staged(i)` is for SSH target `i`,
      `clock(k)` for rsync call `k`, `items` the number of PBS items. */
  datatype Environment = Environment(
    commands: Outcomes, before: ScriptOutcome, after: ScriptOutcome, items: nat,
    servers: map<string, Server>, staged: nat -> bool, clock: nat -> string, keyFileExists: bool,
    mountDir: string, mtabDir: string, logDir: string, scriptUser: string)
  {
    function LegCode(k: nat): int {
      commands.leg(k).command.Reported()
    }
  }

  predicate LuksUsable(job: Job, keyFileExists: bool) {
    job.luksType != LUKS_NONE && (job.luksType == LUKS_FILE ==> keyFileExists)
  }

  /** The script before the transfers is leg number 0 if it runs. */
  function LegsBefore(job: Job, env: Environment): nat {
    if ScriptRuns(job.scriptBefore, env.before) then 1 else 0
  }

  /** The exit code of rsync call number `k`. */
  function RsyncCodes(job: Job, env: Environment): nat -> int {
    (k: nat) => env.LegCode(LegsBefore(job, env) + k)
  }

  function Repeat(kind: LegKind, n: nat): (r: seq<LegKind>)
    ensures |r| == n && forall i :: 0 <= i < n ==> r[i] == kind
  {
    seq(n, _ => kind)
  }

  /** The legs of a run with `logs` rsync calls, in order. */
  function LegKinds(job: Job, env: Environment, logs: nat): seq<LegKind> {
    Repeat(Before, LegsBefore(job, env)) + Repeat(Rsync, logs) + Repeat(Pbs, if job.pbs then env.items else 0)
    + Repeat(After, if ScriptRuns(job.scriptAfter, env.after) then 1 else 0)
  }

  /** The transfers of a run for given iteration orders of the folder maps. */
  function RunPlan(job: Job, env: Environment, pairs: Pairs, ls: seq<Pairs>, dir: string): seq<Route>
    requires |ls| == |job.sshTargets|
  {
    Plan("", pairs, dir)
    + if job.ssh then SshPlan(job.sshTargets, ls, env.servers, env.staged, dir) else []
  }

  function RunMessages(job: Job, env: Environment, logs: nat): seq<string> {
    var first := LegsBefore(job, env);
    var last := first + logs + if job.pbs then env.items else 0;
    ScriptMessages("before", job.scriptBefore, env.before, env.scriptUser, env.LegCode(0))
    + (if job.ssh then SshMessages(job.sshTargets, env.servers, env.staged) else [])
    + ScriptMessages("after", job.scriptAfter, env.after, env.scriptUser, env.LegCode(last))
  }

  /** After rsync calls with the entries `logs` the legs are `kinds`, and each entry belongs to its leg. */
  predicate LogsMatch(job: Job, env: Environment, kinds: seq<LegKind>, logs: seq<Log>) {
    && kinds == Repeat(Before, LegsBefore(job, env)) + Repeat(Rsync, |logs|)
    && LogsFollow(logs, env.logDir, job.saveLog, env.clock, RsyncCodes(job, env))
  }

  class BackupRun {
    const luks: bool // the partition is of type crypto_LUKS
    var world: World
    var bakLogs: seq<Log>
    var bakMessages: seq<string>
    var legs: nat    // legs made so far
    ghost var trace: seq<Action>
    ghost var kinds: seq<LegKind>  // their kinds
    ghost var secured: World       // the target and the trace when the legs began
    ghost var setup: seq<Action>

    constructor (luks: bool, world: World)
      ensures this.luks == luks && this.world == world
    {
      this.luks, this.world := luks, world;
      bakLogs, bakMessages, legs, trace, kinds, secured, setup := [], [], 0, [], [], world, [];
    }

    // ----- External commands -----

    method IsMounted() returns (r: bool)
      modifies this`trace
      ensures r == world.mounted && trace == old(trace) + [Checked(r)]
    {
      trace := trace + [Checked(world.mounted)];
      r := world.mounted;
    }

    method RunLuksOpen(c: Command) returns (code: int)
      modifies this`world, this`trace
      ensures (world, code) == AfterLuksOpen(old(world), c) && trace == old(trace) + [LuksOpen(code)]
    {
      var (w, r) := AfterLuksOpen(world, c);
      world, code, trace := w, r, trace + [LuksOpen(r)];
    }

    method RunMount(c: Command) returns (code: int)
      modifies this`world, this`trace
      ensures (world, code) == AfterMount(luks, old(world), c) && trace == old(trace) + [Mount(code)]
    {
      var (w, r) := AfterMount(luks, world, c);
      world, code, trace := w, r, trace + [Mount(r)];
    }

    method RunUmount(c: Command) returns (code: int)
      modifies this`world, this`trace
      ensures (world, code) == AfterUmount(old(world), c) && trace == old(trace) + [Umount(code)]
    {
      var (w, r) := AfterUmount(world, c);
      world, code, trace := w, r, trace + [Umount(r)];
    }

    method RunLuksClose(c: Command) returns (code: int)
      requires !world.mounted
      modifies this`world, this`trace
      ensures (world, code) == AfterLuksClose(old(world), c) && trace == old(trace) + [LuksClose(code)]
    {
      var (w, r) := AfterLuksClose(world, c);
      world, code, trace := w, r, trace + [LuksClose(r)];
    }

    /** A script, an rsync call or a PBS item. */
    method RunLeg(kind: LegKind, env: Environment) returns (code: int)
      requires LegsDone(env)
      modifies this`world, this`legs, this`trace, this`kinds
      ensures LegsDone(env) && kinds == old(kinds) + [kind] && legs == |kinds|
      ensures code == env.LegCode(old(legs)) && old(legs) == |old(kinds)|
    {
      hide LegTrace, AfterLeg;
      var o := env.commands.leg(legs);
      code := o.command.Reported();
      world := AfterLeg(luks, world, o);
      legs := legs + 1;
      trace := trace + [Leg(kind, code)];
      kinds := kinds + [kind];
      OneMoreLeg(kinds, env.commands.leg);
      assert (setup + LegTrace(old(kinds), env.commands.leg)) + [Leg(kind, code)]
          == setup + (LegTrace(old(kinds), env.commands.leg) + [Leg(kind, code)]);
    }

    /** The target and the trace are what the legs so far make of them. */
    ghost predicate LegsDone(env: Environment)
      reads this`legs, this`kinds, this`world, this`secured, this`setup, this`trace
    {
      && legs == |kinds|
      && world == AfterLegs(luks, secured, env.commands.leg, legs)
      && trace == setup + LegTrace(kinds, env.commands.leg)
    }

    // ----- The library's steps -----

    /** The mount directory, or "" for a failure. A mount that took although the command reported an error is a
        failure here. */
    method MountPartition(job: Job, env: Environment) returns (dir: string)
      modifies this`world, this`trace
      ensures
        var m := MountSpec(luks, LuksUsable(job, env.keyFileExists), old(world), env.commands.open, env.commands.mount);
        world == m.world && trace == old(trace) + m.steps && dir == if m.ok then env.mountDir else ""
    {
      ghost var t := trace;
      if luks {
        if job.luksType == LUKS_NONE {
          assert trace == t + [];
          return "";
        }
        if job.luksType == LUKS_FILE && !env.keyFileExists {
          assert trace == t + [];
          return "";
        }
        var code := RunLuksOpen(env.commands.open);
        if code != 0 {
          return "";
        }
      }
      ghost var opening := if luks then [LuksOpen(0)] else [];
      assert trace == t + opening;
      var code := RunMount(env.commands.mount);
      assert trace == t + (opening + [Mount(code)] + []);
      if code != 0 {
        return "";
      }
      var took := IsMounted();
      assert trace == t + (opening + [Mount(code)] + [Checked(took)]);
      if !took {
        return "";
      }
      return env.mountDir;
    }

    method UmountPartition(env: Environment) returns (released: bool)
      modifies this`world, this`trace
      ensures
        var r := ReleaseSpec(luks, old(world), env.commands.umount, env.commands.close);
        world == r.world && trace == old(trace) + r.steps && released == r.ok
    {
      ghost var t := trace;
      var code := RunUmount(env.commands.umount);
      assert trace == t + ([Umount(code)] + []);
      if code != 0 {
        return false;
      }
      var still := IsMounted();
      assert trace == t + ([Umount(code)] + [Checked(still)]);
      if still {
        return false;
      }
      if luks {
        var rc := RunLuksClose(env.commands.close);
        assert trace == t + ([Umount(code)] + [Checked(still)] + [LuksClose(rc)]);
        if rc != 0 {
          return false;
        }
      }
      return true;
    }

    /** The guard of a run: mount the target unless it is mounted, and look again. */
    method SecureMount(job: Job, env: Environment) returns (ready: bool, dir: string)
      modifies this`world, this`trace
      ensures
        var g := GuardSpec(luks, LuksUsable(job, env.keyFileExists), old(world), env.commands.open, env.commands.mount);
        && world == g.world && trace == g.steps && ready == g.ok
      ensures old(world.mounted) ==> dir == env.mtabDir
      ensures !old(world.mounted) ==>
        var usable := LuksUsable(job, env.keyFileExists);
        dir == if MountTakes(luks, usable, old(world), env.commands.open, env.commands.mount)
                  && MountReported(luks, usable, old(world), env.commands.open, env.commands.mount)
               then env.mountDir else ""
    {
      hide MountSpec, MountTakes, MountReported, LuksUsable;
      trace := [];
      var already := IsMounted();
      if already {
        return true, env.mtabDir;
      }
      GuardOutcome(luks, LuksUsable(job, env.keyFileExists), world, env.commands.open, env.commands.mount);
      dir := MountPartition(job, env);
      ready := IsMounted();
    }

    // ----- The legs -----

    /** The rsync calls so far: their log entries, and one leg for each. */
    ghost predicate LogsDone(job: Job, env: Environment)
      reads this`legs, this`kinds, this`world, this`secured, this`setup, this`trace, this`bakLogs
    {
      LegsDone(env) && LogsMatch(job, env, kinds, bakLogs)
    }

    /** One rsync call with its log entry. */
    method RunRsync(job: Job, env: Environment, source: string, destination: string)
      requires LogsDone(job, env)
      modifies this`world, this`legs, this`bakLogs, this`trace, this`kinds
      ensures LogsDone(job, env)
      ensures Routes(bakLogs) == Routes(old(bakLogs)) + [(source, destination)]
    {
      hide LegsDone, LogsMatch, Routes, LogPath;
      var path := if job.saveLog then LogPath(env.logDir, env.clock(|bakLogs|), |bakLogs|) else "";
      var code := RunLeg(Rsync, env);
      var log := Log(source, destination, path, code);
      OneMoreLog(job, env, old(kinds), bakLogs, log);
      RoutesOne(bakLogs, log);
      bakLogs := bakLogs + [log];
    }

    method RunPairs(job: Job, env: Environment, prefix: string, pairs: Pairs, dir: string)
      requires LogsDone(job, env)
      modifies this`world, this`legs, this`bakLogs, this`trace, this`kinds
      ensures LogsDone(job, env)
      ensures Routes(bakLogs) == Routes(old(bakLogs)) + Plan(prefix, pairs, dir)
    {
      hide LogsDone, LogsFollow, Plan, Routes, RsyncCodes;
      ghost var plan := Plan(prefix, pairs, dir);
      for i := 0 to |pairs|
        invariant LogsDone(job, env)
        invariant Routes(bakLogs) == Routes(old(bakLogs)) + plan[..i]
      {
        assert plan[..i + 1] == plan[..i] + [plan[i]];
        RunRsync(job, env, prefix + pairs[i].0, ConvertGeneric2Path(pairs[i].1, dir));
      }
    }

    method RunTarget(job: Job, env: Environment, t: SshTargets.Target, staged: bool, dir: string)
      returns (ghost l: Pairs)
      requires LogsDone(job, env)
      modifies this`world, this`legs, this`bakLogs, this`bakMessages, this`trace, this`kinds
      ensures LogsDone(job, env) && Lists(l, t.dirs)
      ensures Routes(bakLogs) == Routes(old(bakLogs)) + TargetPlan(t, l, env.servers, staged, dir)
      ensures bakMessages == old(bakMessages) + TargetMessages(t, env.servers, staged)
    {
      hide LogsDone, LogsFollow, Plan, Routes, Lists;
      var pairs := Iterate(t.dirs);
      l := pairs;
      var skip := SkipMessage(t, env.servers, staged);
      if skip.Some? {
        bakMessages := bakMessages + [skip.value];
      } else {
        RunPairs(job, env, RemotePrefix(env.servers[t.server]), pairs, dir);
      }
    }

    /** The SSH loop: an entry for each pair of each target that is not skipped, in order, and exactly one
        message for each target that is. */
    method RunSsh(job: Job, env: Environment, dir: string) returns (ghost ls: seq<Pairs>)
      requires LogsDone(job, env)
      modifies this`world, this`legs, this`bakLogs, this`bakMessages, this`trace, this`kinds
      ensures LogsDone(job, env) && SshTargets.Orders(ls, job.sshTargets)
      ensures Routes(bakLogs) == Routes(old(bakLogs)) + SshPlan(job.sshTargets, ls, env.servers, env.staged, dir)
      ensures bakMessages == old(bakMessages) + SshMessages(job.sshTargets, env.servers, env.staged)
    {
      hide SshPlan, SshMessages, LogsDone, LogsFollow, Routes, TargetPlan, TargetMessages, Lists;
      ls := [];
      var ts := job.sshTargets;
      EmptySsh(env.servers, env.staged, dir);
      for i := 0 to |ts|
        invariant LogsDone(job, env) && SshTargets.Orders(ls, ts[..i])
        invariant Routes(bakLogs) == Routes(old(bakLogs)) + SshPlan(ts[..i], ls, env.servers, env.staged, dir)
        invariant bakMessages == old(bakMessages) + SshMessages(ts[..i], env.servers, env.staged)
      {
        ghost var l := RunTarget(job, env, ts[i], env.staged(i), dir);
        SshStep(ts, i, ls, l, env.servers, env.staged, dir);
        assert ts[..i + 1] == ts[..i] + [ts[i]];
        ls := ls + [l];
      }
      assert ts[..|ts|] == ts;
    }

    /** A script before or after the transfers leaves exactly one message, if the job has one. */
    method RunScript(kind: LegKind, phase: string, script: string, o: ScriptOutcome, env: Environment)
      requires LegsDone(env)
      modifies this`world, this`legs, this`bakMessages, this`trace, this`kinds
      ensures LegsDone(env) && kinds == old(kinds) + if ScriptRuns(script, o) then [kind] else []
      ensures bakMessages ==
        old(bakMessages) + ScriptMessages(phase, script, o, env.scriptUser, env.LegCode(old(legs)))
    {
      if script == "" {
        return;
      }
      var msg;
      if !o.confined {
        msg := "Script " + phase + " Backup <" + script + "> is outside the scripts directory or missing, skipping";
      } else if !o.staged {
        msg := "Script " + phase + " Backup could not be staged.";
      } else if !o.userFound {
        msg := "Script " + phase + " Backup NOT run: run-user '" + env.scriptUser
          + "' not found (refusing to run as root).";
      } else {
        var code := RunLeg(kind, env);
        msg := if code != 0 then "Script " + phase + " Backup was not executed properly."
          else "Script " + phase + " Backup was executed properly.";
      }
      bakMessages := bakMessages + [msg];
    }

    method RunItems(n: nat, env: Environment)
      requires LegsDone(env) && legs == |kinds|
      modifies this`world, this`legs, this`trace, this`kinds
      ensures LegsDone(env) && kinds == old(kinds) + Repeat(Pbs, n) && legs == |kinds|
    {
      hide LegsDone;
      for i := 0 to n
        invariant LegsDone(env) && kinds == old(kinds) + Repeat(Pbs, i) && legs == |kinds|
      {
        assert Repeat(Pbs, i + 1) == Repeat(Pbs, i) + [Pbs];
        var _ := RunLeg(Pbs, env);
      }
    }

    /** The transfers: the local folders, then the SSH targets. */
    method RunTransfers(job: Job, env: Environment, dir: string) returns (ghost pairs: Pairs, ghost ls: seq<Pairs>)
      requires LegsDone(env) && bakLogs == []
      requires kinds == Repeat(Before, LegsBefore(job, env)) + Repeat(Rsync, 0)
      modifies this`world, this`legs, this`bakLogs, this`bakMessages, this`trace, this`kinds
      ensures LegsDone(env) && legs == |kinds|
      ensures kinds == Repeat(Before, LegsBefore(job, env)) + Repeat(Rsync, |bakLogs|)
      ensures LogsFollow(bakLogs, env.logDir, job.saveLog, env.clock, RsyncCodes(job, env))
      ensures Lists(pairs, job.backupdirs) && |ls| == |job.sshTargets|
      ensures job.ssh ==> SshTargets.Orders(ls, job.sshTargets)
      ensures Routes(bakLogs) == RunPlan(job, env, pairs, ls, dir)
      ensures bakMessages ==
        old(bakMessages) + if job.ssh then SshMessages(job.sshTargets, env.servers, env.staged) else []
    {
      hide LogsFollow, Plan, SshPlan, SshMessages, Lists, Routes, Repeat;
      NoLogs(env.logDir, job.saveLog, env.clock, RsyncCodes(job, env));
      var dirs := Iterate(job.backupdirs);
      RunPairs(job, env, "", dirs, dir);
      assert Routes(bakLogs) == Plan("", dirs, dir);
      pairs, ls := dirs, seq(|job.sshTargets|, _ => []);
      if job.ssh {
        ls := RunSsh(job, env, dir);
      }
    }

    /** All legs of a run, in the order of the program. */
    method RunLegs(job: Job, env: Environment, dir: string) returns (ghost pairs: Pairs, ghost ls: seq<Pairs>)
      requires LegsDone(env) && kinds == [] && legs == 0 && bakLogs == [] && bakMessages == []
      modifies this`world, this`legs, this`bakLogs, this`bakMessages, this`trace, this`kinds
      ensures LegsDone(env) && kinds == LegKinds(job, env, |bakLogs|)
      ensures LogsFollow(bakLogs, env.logDir, job.saveLog, env.clock, RsyncCodes(job, env))
      ensures Lists(pairs, job.backupdirs) && |ls| == |job.sshTargets|
      ensures job.ssh ==> SshTargets.Orders(ls, job.sshTargets)
      ensures Routes(bakLogs) == RunPlan(job, env, pairs, ls, dir)
      ensures bakMessages == RunMessages(job, env, |bakLogs|)
    {
      hide SshMessages, ScriptMessages, Lists, SshTargets.Orders, Routes, RunPlan, LogsFollow, ScriptRuns, LegsDone,
        Repeat, LegKinds, LegsBefore, RsyncCodes, RunMessages;
      RunScript(Before, "before", job.scriptBefore, env.before, env);
      NoLogs(env.logDir, job.saveLog, env.clock, RsyncCodes(job, env));
      KindsInTurn(job, env, 0);
      pairs, ls := RunTransfers(job, env, dir);
      KindsInTurn(job, env, |bakLogs|);
      MessagesInTurn(job, env, |bakLogs|);
      RunRest(job, env);
    }

    /** What follows the transfers: the PBS items, then the script. */
    method RunRest(job: Job, env: Environment)
      requires LegsDone(env) && legs == |kinds|
      modifies this`world, this`legs, this`bakMessages, this`trace, this`kinds
      ensures LegsDone(env)
      ensures
        var items := if job.pbs then env.items else 0;
        && kinds == old(kinds) + Repeat(Pbs, items) + (if ScriptRuns(job.scriptAfter, env.after) then [After] else [])
        && bakMessages == old(bakMessages) +
           ScriptMessages("after", job.scriptAfter, env.after, env.scriptUser, env.LegCode(old(legs) + items))
    {
      hide ScriptMessages, ScriptRuns, LegsDone, Repeat;
      NoItems();
      if job.pbs {
        RunItems(env.items, env);
      }
      RunScript(After, "after", job.scriptAfter, env.after, env);
    }

    /** `startBackup(part)`: target, trace and results are those of the specification, for the legs that the job
        asks for; the log list and the messages say which legs these were and how they ended. */
    method StartBackup(job: Job, env: Environment)
      returns (ok: bool, ghost released: bool, ghost dir: string, ghost pairs: Pairs, ghost ls: seq<Pairs>)
      modifies this
      ensures RunSpec(luks, LuksUsable(job, env.keyFileExists), job.umountAfter, old(world), env.commands,
                      LegKinds(job, env, |bakLogs|)) == Run(world, trace, ok, released)
      ensures old(world.mounted) ==> dir == env.mtabDir
      ensures !old(world.mounted) ==>
        var usable := LuksUsable(job, env.keyFileExists);
        dir == if MountTakes(luks, usable, old(world), env.commands.open, env.commands.mount)
                  && MountReported(luks, usable, old(world), env.commands.open, env.commands.mount)
               then env.mountDir else ""
      ensures !ok ==> bakLogs == [] && bakMessages == []
      ensures ok ==> Lists(pairs, job.backupdirs) && |ls| == |job.sshTargets|
      ensures ok && job.ssh ==> SshTargets.Orders(ls, job.sshTargets)
      ensures ok ==> Routes(bakLogs) == RunPlan(job, env, pairs, ls, dir)
      ensures ok ==> bakMessages == RunMessages(job, env, |bakLogs|)
      ensures LogsFollow(bakLogs, env.logDir, job.saveLog, env.clock, RsyncCodes(job, env))
    {
      hide Lists, SshTargets.Orders, Routes, RunPlan, RunMessages, LogsFollow, MountSpec, ReleaseSpec, LegKinds,
        MountTakes, MountReported, LuksUsable;
      released, pairs, ls := false, [], [];
      bakLogs, bakMessages := [], [];
      NoLogs(env.logDir, job.saveLog, env.clock, RsyncCodes(job, env));
      var deviceMountDir;
      ok, deviceMountDir := SecureMount(job, env);
      dir := deviceMountDir;
      if !ok {
        return;
      }
      legs, kinds, secured, setup := 0, [], world, trace;
      assert trace == setup + [];
      pairs, ls := RunLegs(job, env, deviceMountDir);
      if job.umountAfter {
        released := UmountPartition(env);
      }
    }
  }

  lemma OneMoreLeg(kinds: seq<LegKind>, leg: nat -> LegOutcome)
    requires kinds != []
    ensures
      var n := |kinds| - 1;
      LegTrace(kinds, leg) == LegTrace(kinds[..n], leg) + [Leg(kinds[n], leg(n).command.Reported())]
  {}

  lemma NoLogs(dir: string, save: bool, clock: nat -> string, code: nat -> int)
    ensures LogsFollow([], dir, save, clock, code)
    ensures Routes([]) == []
  {}

  /** The log entry of the rsync call number `k` carries the exit code of that leg of the trace. */
  lemma LogOfLeg(job: Job, env: Environment, luks: bool, w: World, logs: seq<Log>, k: nat)
    requires k < |logs|
    requires LogsFollow(logs, env.logDir, job.saveLog, env.clock, RsyncCodes(job, env))
    ensures
      var usable := LuksUsable(job, env.keyFileExists);
      var r := RunSpec(luks, usable, job.umountAfter, w, env.commands, LegKinds(job, env, |logs|));
      var start := |GuardSpec(luks, usable, w, env.commands.open, env.commands.mount).steps|;
      r.ok ==>
        var i := start + LegsBefore(job, env) + k;
        i < |r.trace| && r.trace[i] == Leg(Rsync, logs[k].code)
  {
    hide RunSpec, GuardSpec, LegKinds;
    var kinds, i := LegKinds(job, env, |logs|), LegsBefore(job, env) + k;
    RsyncAt(job, env, |logs|, k);
    LegInTrace(luks, LuksUsable(job, env.keyFileExists), job.umountAfter, w, env.commands, kinds, i);
    assert logs[k].code == RsyncCodes(job, env)(k) == env.LegCode(i);
    var start := |GuardSpec(luks, LuksUsable(job, env.keyFileExists), w, env.commands.open, env.commands.mount).steps|;
    assert start + LegsBefore(job, env) + k == start + i;
  }

  lemma RsyncAt(job: Job, env: Environment, logs: nat, k: nat)
    requires k < logs
    ensures
      var kinds, i := LegKinds(job, env, logs), LegsBefore(job, env) + k;
      i < |kinds| && kinds[i] == Rsync
  {}

  lemma OneMoreLog(job: Job, env: Environment, kinds: seq<LegKind>, logs: seq<Log>, log: Log)
    requires LogsMatch(job, env, kinds, logs)
    requires log.path == (if job.saveLog then LogPath(env.logDir, env.clock(|logs|), |logs|) else "")
    requires log.code == env.LegCode(|kinds|)
    ensures LogsMatch(job, env, kinds + [Rsync], logs + [log])
  {
    hide LogsFollow, LogPath, Repeat;
    assert |kinds| == LegsBefore(job, env) + |logs|;
    assert Repeat(Rsync, |logs| + 1) == Repeat(Rsync, |logs|) + [Rsync];
    LogsFollowOne(logs, log, env.logDir, job.saveLog, env.clock, RsyncCodes(job, env));
  }

  lemma NoItems()
    ensures Repeat(Pbs, 0) == []
  {}

  lemma MessagesInTurn(job: Job, env: Environment, logs: nat)
    ensures RunMessages(job, env, logs) ==
            [] + ScriptMessages("before", job.scriptBefore, env.before, env.scriptUser, env.LegCode(0))
            + (if job.ssh then SshMessages(job.sshTargets, env.servers, env.staged) else [])
            + ScriptMessages("after", job.scriptAfter, env.after, env.scriptUser,
                             env.LegCode(LegsBefore(job, env) + logs + if job.pbs then env.items else 0))
  {
    hide ScriptMessages, SshMessages;
    assert [] + ScriptMessages("before", job.scriptBefore, env.before, env.scriptUser, env.LegCode(0))
        == ScriptMessages("before", job.scriptBefore, env.before, env.scriptUser, env.LegCode(0));
  }

  lemma KindsInTurn(job: Job, env: Environment, logs: nat)
    ensures LegKinds(job, env, logs) ==
            Repeat(Before, LegsBefore(job, env)) + Repeat(Rsync, logs) + Repeat(Pbs, if job.pbs then env.items else 0)
            + if ScriptRuns(job.scriptAfter, env.after) then [After] else []
    ensures (if ScriptRuns(job.scriptBefore, env.before) then [Before] else []) ==
            Repeat(Before, LegsBefore(job, env)) + Repeat(Rsync, 0)
  {}
}
