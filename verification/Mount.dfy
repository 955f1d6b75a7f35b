/** The life cycle of a backup target: what a run does to it, for every outcome of the external commands.
    The functions below are the specification that the methods of `BackupRun` meet step by step. */
module Mounting {
  import opened Commands

  /** The target: whether the mount table lists it, and whether its LUKS mapping is open. */
  datatype World = World(mounted: bool, mapping: bool)

  /** The kernel mounts a mapped device only while the mapping is open. */
  predicate Possible(luks: bool, w: World) {
    luks && w.mounted ==> w.mapping
  }

  /** A leg ends with an exit code in a target that others may have mounted or released meanwhile. */
  datatype LegOutcome = LegOutcome(command: Command, world: World)

  /** Everything the commands of one run answer; `leg(k)` is for the leg number `k`. */
  datatype Outcomes = Outcomes(open: Command, mount: Command, umount: Command, close: Command, leg: nat -> LegOutcome)

  /** Scripts before the transfers; rsync calls; PBS items; scripts after them. */
  datatype LegKind = Before | Rsync | Pbs | After

  /** What a run did, with the exit codes that it read. */
  datatype Action =
    | Checked(mounted: bool)
    | LuksOpen(code: int) | Mount(code: int)
    | Leg(kind: LegKind, legCode: int)
    | Umount(code: int) | LuksClose(code: int)

  // ----- The commands -----

  const EXISTS: int := 5
  const NOT_ACTIVE: int := 4

  /** `cryptsetup luksOpen` that completes with 0 opens the mapping, and it reports an error if the mapping
      exists. With any other end it may have opened the mapping or not. */
  function AfterLuksOpen(w: World, c: Command): (World, int) {
    if !c.completed || c.code != 0 then (w.(mapping := w.mapping || c.effect), c.Reported())
    else if w.mapping then (w, EXISTS)
    else (w.(mapping := true), 0)
  }

  /** The exit code of `mount` need not agree with what it did. */
  function AfterMount(luks: bool, w: World, c: Command): (World, int) {
    (w.(mounted := w.mounted || (c.effect && (luks ==> w.mapping))), c.Reported())
  }

  /** The same for `umount`. */
  function AfterUmount(w: World, c: Command): (World, int) {
    (w.(mounted := w.mounted && !c.effect), c.Reported())
  }

  /** `cryptsetup close`, which nobody may ask for while the device is mounted, likewise. */
  function AfterLuksClose(w: World, c: Command): (World, int)
    requires !w.mounted
  {
    if !c.completed || c.code != 0 then (w.(mapping := w.mapping && !c.effect), c.Reported())
    else if !w.mapping then (w, NOT_ACTIVE)
    else (w.(mapping := false), 0)
  }

  function AfterLeg(luks: bool, w: World, o: LegOutcome): World {
    if Possible(luks, o.world) then o.world else w
  }

  function AfterLegs(luks: bool, w: World, leg: nat -> LegOutcome, n: nat): World {
    if n == 0 then w else AfterLeg(luks, AfterLegs(luks, w, leg, n - 1), leg(n - 1))
  }

  function LegTrace(kinds: seq<LegKind>, leg: nat -> LegOutcome): (r: seq<Action>)
    ensures |r| == |kinds|
    ensures forall i :: 0 <= i < |kinds| ==> r[i] == Leg(kinds[i], leg(i).command.Reported())
  {
    if kinds == [] then []
    else
      var n := |kinds| - 1;
      LegTrace(kinds[..n], leg) + [Leg(kinds[n], leg(n).command.Reported())]
  }

  // ----- The steps of the library -----

  /** The target afterwards, the steps taken, and the success reported. */
  datatype Part = Part(world: World, steps: seq<Action>, ok: bool)

  /** The mount table is consulted only after a command that reports no error. */
  function Look(code: int, w: World): seq<Action> {
    if code == 0 then [Checked(w.mounted)] else []
  }

  /** `mountPartition`: open the mapping if there is one to open, mount, and look if the mount reports no
      error. */
  function MountSpec(luks: bool, usable: bool, w: World, open: Command, mount: Command): Part {
    if luks && !usable then Part(w, [], false)
    else
      var (w1, code1) := if luks then AfterLuksOpen(w, open) else (w, 0);
      var opening := if luks then [LuksOpen(code1)] else [];
      if code1 != 0 then Part(w1, opening, false)
      else
        var (w2, code2) := AfterMount(luks, w1, mount);
        Part(w2, opening + [Mount(code2)] + Look(code2, w2), code2 == 0 && w2.mounted)
  }

  /** `umountPartition`: unmount and, if that reports no error, look; only a clean unmount is followed by closing
      the mapping. */
  function ReleaseSpec(luks: bool, w: World, umount: Command, close: Command): Part {
    var (w1, code1) := AfterUmount(w, umount);
    var steps := [Umount(code1)] + Look(code1, w1);
    if code1 != 0 || w1.mounted then Part(w1, steps, false)
    else if luks then
      var (w2, code2) := AfterLuksClose(w1, close);
      Part(w2, steps + [LuksClose(code2)], code2 == 0)
    else Part(w1, steps, true)
  }

  /** The guard at the start of a run. `ok` is the final look, `clean` the success that mounting reported. */
  datatype Guard = Guard(world: World, steps: seq<Action>, ok: bool, clean: bool)

  function GuardSpec(luks: bool, usable: bool, w: World, open: Command, mount: Command): Guard {
    if w.mounted then Guard(w, [Checked(true)], true, true)
    else
      var m := MountSpec(luks, usable, w, open, mount);
      Guard(m.world, [Checked(false)] + m.steps + [Checked(m.world.mounted)], m.world.mounted, m.ok)
  }

  datatype Run = Run(world: World, trace: seq<Action>, ok: bool, released: bool)

  /** One run of a job that, once the target is secured, makes the legs `kinds`. */
  function RunSpec(luks: bool, usable: bool, release: bool, w: World, env: Outcomes, kinds: seq<LegKind>): Run {
    var g := GuardSpec(luks, usable, w, env.open, env.mount);
    if !g.ok then Run(g.world, g.steps, false, false)
    else
      var w1 := AfterLegs(luks, g.world, env.leg, |kinds|);
      var trace := g.steps + LegTrace(kinds, env.leg);
      if release then
        var r := ReleaseSpec(luks, w1, env.umount, env.close);
        Run(r.world, trace + r.steps, true, r.ok)
      else Run(w1, trace, true, false)
  }

  // ----- What mounting and releasing guarantee -----

  /** Whether a luksOpen that finds the mapping closed opens it. */
  predicate Opens(c: Command) {
    (c.completed && c.code == 0) || c.effect
  }

  predicate ReportsOpen(w: World, c: Command) {
    !c.completed || (c.code == 0 && !w.mapping)
  }

  /** The mount takes, which for LUKS needs a usable setup, an opening that reports success, and an open
      mapping. */
  predicate MountTakes(luks: bool, usable: bool, w: World, open: Command, mount: Command) {
    mount.effect && (luks ==> usable && ReportsOpen(w, open) && (w.mapping || Opens(open)))
  }

  /** Success is reported exactly for a target that is mounted in the end, by a mount command that reported no
      error, with the mapping reported open. */
  predicate MountReported(luks: bool, usable: bool, w: World, open: Command, mount: Command) {
    mount.Reported() == 0 && (luks ==> usable && ReportsOpen(w, open))
  }

  /** Mounting reaches a mounted target exactly if it already was one or the mount takes; which of these are
      reported is exact as well. The mapping is open afterwards exactly if it was or this call opened it; nothing
      closes it again. */
  lemma MountOutcome(luks: bool, usable: bool, w: World, open: Command, mount: Command)
    requires Possible(luks, w)
    ensures
      var m := MountSpec(luks, usable, w, open, mount);
      && Possible(luks, m.world)
      && (m.world.mounted <==> w.mounted || MountTakes(luks, usable, w, open, mount))
      && (luks ==> (m.world.mapping <==> w.mapping || (usable && Opens(open))))
      && (!luks ==> m.world.mapping == w.mapping)
      && (m.ok <==> m.world.mounted && MountReported(luks, usable, w, open, mount))
  {}

  /** Success is reported exactly for a target that is unmounted in the end, after commands that reported no error;
      closing reports none if it was given up or closed an open mapping. The mapping is then closed, unless the
      closing was given up without effect. A target that is still mounted keeps its mapping. */
  lemma ReleaseOutcome(luks: bool, w: World, umount: Command, close: Command)
    requires Possible(luks, w)
    ensures
      var r := ReleaseSpec(luks, w, umount, close);
      && Possible(luks, r.world)
      && (r.world.mounted <==> w.mounted && !umount.effect)
      && (r.ok <==> !r.world.mounted && umount.Reported() == 0
                    && (luks ==> !close.completed || (close.code == 0 && w.mapping)))
      && (r.ok && luks ==> (r.world.mapping <==> w.mapping && !close.completed && !close.effect))
      && (r.world.mounted ==> !r.ok && r.world.mapping == w.mapping)
      && (!luks ==> r.world.mapping == w.mapping)
  {}

  /** Every closing of a mapping directly follows a clean unmount and a look that found the target free. */
  ghost predicate ClosesAfterUmount(trace: seq<Action>) {
    forall i :: 0 <= i < |trace| && trace[i].LuksClose? ==>
      i >= 2 && trace[i - 2] == Umount(0) && trace[i - 1] == Checked(false)
  }

  /** Before the first leg the target was seen mounted. */
  ghost predicate Guarded(trace: seq<Action>) {
    forall i :: 0 <= i < |trace| && trace[i].Leg? ==> exists k :: 0 <= k < i && trace[k] == Checked(true)
  }

  predicate NoLegs(trace: seq<Action>) {
    forall i :: 0 <= i < |trace| ==> !trace[i].Leg?
  }

  predicate NoReleases(trace: seq<Action>) {
    forall i :: 0 <= i < |trace| ==> !trace[i].Umount? && !trace[i].LuksClose?
  }

  lemma GuardOutcome(luks: bool, usable: bool, w: World, open: Command, mount: Command)
    requires Possible(luks, w)
    ensures
      var g := GuardSpec(luks, usable, w, open, mount);
      && Possible(luks, g.world) && NoLegs(g.steps) && NoReleases(g.steps)
      && (g.ok <==> g.world.mounted)
      && g.steps != [] && g.steps[|g.steps| - 1] == Checked(g.ok)
      && (g.ok <==> w.mounted || MountTakes(luks, usable, w, open, mount))
      && (w.mounted ==> g.world == w && g.steps == [Checked(true)])
      && (g.clean <==> w.mounted || (g.ok && MountReported(luks, usable, w, open, mount)))
      && (luks ==> (g.world.mapping <==> w.mapping || (!w.mounted && usable && Opens(open))))
  {
    MountOutcome(luks, usable, w, open, mount);
  }

  // ----- What a run guarantees -----

  /** A run that fails ran no leg and released nothing, and the target is not mounted. Its mapping is open
      exactly if it was before or this run opened it. */
  lemma FailedRun(luks: bool, usable: bool, release: bool, w: World, env: Outcomes, kinds: seq<LegKind>)
    requires Possible(luks, w)
    ensures
      var r := RunSpec(luks, usable, release, w, env, kinds);
      !r.ok ==>
        && !w.mounted && !r.world.mounted && !r.released && NoLegs(r.trace) && NoReleases(r.trace)
        && (luks ==> (r.world.mapping <==> w.mapping || (usable && Opens(env.open))))
        && (luks && env.open.completed && (env.open.code == 0 || !env.open.effect) ==>
              (r.world.mapping <==> w.mapping || (|r.trace| > 1 && r.trace[1] == LuksOpen(0))))
  {
    GuardOutcome(luks, usable, w, env.open, env.mount);
  }

  lemma {:induction false} LegsStayPossible(luks: bool, w: World, leg: nat -> LegOutcome, n: nat)
    requires Possible(luks, w)
    ensures Possible(luks, AfterLegs(luks, w, leg, n))
  {
    if n > 0 {
      LegsStayPossible(luks, w, leg, n - 1);
    }
  }

  /** A run saw the target mounted before its first leg, closes a mapping only behind a clean unmount, releases
      only if it should, and keeps "mounted implies mapping open". */
  lemma EveryRun(luks: bool, usable: bool, release: bool, w: World, env: Outcomes, kinds: seq<LegKind>)
    requires Possible(luks, w)
    ensures
      var r := RunSpec(luks, usable, release, w, env, kinds);
      && Possible(luks, r.world) && Guarded(r.trace) && ClosesAfterUmount(r.trace)
      && (!release ==> NoReleases(r.trace))
  {
    GuardOutcome(luks, usable, w, env.open, env.mount);
    var g := GuardSpec(luks, usable, w, env.open, env.mount);
    if g.ok {
      LegsStayPossible(luks, g.world, env.leg, |kinds|);
      var w1 := AfterLegs(luks, g.world, env.leg, |kinds|);
      ReleaseOutcome(luks, w1, env.umount, env.close);
      var rest := if release then ReleaseSpec(luks, w1, env.umount, env.close).steps else [];
      ReleaseSteps(luks, w1, env.umount, env.close);
      TraceOf(g.steps, LegTrace(kinds, env.leg), rest);
      var t := g.steps + LegTrace(kinds, env.leg);
      assert t + [] == t;
    }
  }

  lemma ReleaseSteps(luks: bool, w: World, umount: Command, close: Command)
    ensures NoLegs(ReleaseSpec(luks, w, umount, close).steps)
    ensures ClosesAfterUmount(ReleaseSpec(luks, w, umount, close).steps)
  {}

  lemma TraceOf(a: seq<Action>, b: seq<Action>, c: seq<Action>)
    requires a != [] && a[|a| - 1] == Checked(true) && NoLegs(a) && NoReleases(a)
    requires (forall i :: 0 <= i < |b| ==> b[i].Leg?) && NoLegs(c) && ClosesAfterUmount(c)
    ensures Guarded(a + b + c) && ClosesAfterUmount(a + b + c)
    ensures NoReleases(c) ==> NoReleases(a + b + c)
  {
    var t := a + b + c;
    forall i | 0 <= i < |t|
      ensures t[i].Leg? ==> i >= |a| && t[|a| - 1] == Checked(true)
      ensures t[i].LuksClose? ==> i >= 2 && t[i - 2] == Umount(0) && t[i - 1] == Checked(false)
    {
      if i >= |a| + |b| {
        var k := i - |a| - |b|;
        assert t[i] == c[k];
        if c[k].LuksClose? {
          assert t[i - 2] == c[k - 2] && t[i - 1] == c[k - 1];
        }
      }
    }
  }

  /** A target is released exactly if the run passed its guard, should release, and the release reports success. A
      reported release leaves the target unmounted and its mapping closed, unless the closing was given up
      without effect; then the mapping is as the legs left it. Without a release the target stays as the legs left
      it. */
  lemma ReleasedRun(luks: bool, usable: bool, release: bool, w: World, env: Outcomes, kinds: seq<LegKind>)
    requires Possible(luks, w)
    ensures
      var r := RunSpec(luks, usable, release, w, env, kinds);
      r.released ==>
        && r.ok && release && !r.world.mounted
        && (luks && env.close.completed ==> !r.world.mapping)
        && var w1 := AfterLegs(luks, GuardSpec(luks, usable, w, env.open, env.mount).world, env.leg, |kinds|);
           (luks ==> (r.world.mapping <==> w1.mapping && !env.close.completed && !env.close.effect))
    ensures
      var r := RunSpec(luks, usable, release, w, env, kinds);
      var w1 := AfterLegs(luks, GuardSpec(luks, usable, w, env.open, env.mount).world, env.leg, |kinds|);
      && (r.released <==> r.ok && release && !(w1.mounted && !env.umount.effect) && env.umount.Reported() == 0
                          && (luks ==> !env.close.completed || (env.close.code == 0 && w1.mapping)))
      && (r.ok && !release ==> r.world == w1)
      && (r.ok && release ==> (r.world.mounted <==> w1.mounted && !env.umount.effect))
  {
    var g := GuardSpec(luks, usable, w, env.open, env.mount);
    GuardOutcome(luks, usable, w, env.open, env.mount);
    LegsStayPossible(luks, g.world, env.leg, |kinds|);
    ReleaseOutcome(luks, AfterLegs(luks, g.world, env.leg, |kinds|), env.umount, env.close);
  }

  /** The legs stand in the trace in order, right after the guard. */
  lemma LegInTrace(luks: bool, usable: bool, release: bool, w: World, env: Outcomes, kinds: seq<LegKind>, k: nat)
    requires k < |kinds|
    ensures
      var r := RunSpec(luks, usable, release, w, env, kinds);
      var i := |GuardSpec(luks, usable, w, env.open, env.mount).steps| + k;
      r.ok ==> i < |r.trace| && r.trace[i] == Leg(kinds[k], env.leg(k).command.Reported())
  {
    hide GuardSpec, ReleaseSpec, AfterLegs;
    var g := GuardSpec(luks, usable, w, env.open, env.mount);
    var t := g.steps + LegTrace(kinds, env.leg);
    assert t[|g.steps| + k] == LegTrace(kinds, env.leg)[k];
    var rest := ReleaseSpec(luks, AfterLegs(luks, g.world, env.leg, |kinds|), env.umount, env.close).steps;
    assert (t + rest)[|g.steps| + k] == t[|g.steps| + k];
  }

  // ----- A mapping left open -----

  /** With the mapping open and nothing mounted a run succeeds exactly if luksOpen was given up, so that its
      failure went unnoticed, and the mount then took. Otherwise the target stays as it was. */
  lemma StuckRun(usable: bool, release: bool, env: Outcomes, kinds: seq<LegKind>)
    ensures
      var w := World(false, true);
      var r := RunSpec(true, usable, release, w, env, kinds);
      && (r.ok <==> usable && !env.open.completed && env.mount.effect)
      && (!r.ok ==> r.world == w)
  {
    GuardOutcome(true, usable, World(false, true), env.open, env.mount);
  }

  /** One run after the other, each with its own job settings, outcomes and legs. */
  datatype Input = Input(usable: bool, release: bool, env: Outcomes, kinds: seq<LegKind>)

  function AfterRuns(luks: bool, w: World, inputs: seq<Input>): World {
    if inputs == [] then w
    else
      var n := |inputs| - 1;
      var i := inputs[n];
      RunSpec(luks, i.usable, i.release, AfterRuns(luks, w, inputs[..n]), i.env, i.kinds).world
  }

  function Succeeds(luks: bool, w: World, inputs: seq<Input>, n: nat): bool
    requires n < |inputs|
  {
    var i := inputs[n];
    RunSpec(luks, i.usable, i.release, AfterRuns(luks, w, inputs[..n]), i.env, i.kinds).ok
  }

  /** "Mounted implies mapping open" holds after any sequence of runs. */
  lemma {:induction false} RunsStayPossible(luks: bool, w: World, inputs: seq<Input>)
    requires Possible(luks, w)
    ensures Possible(luks, AfterRuns(luks, w, inputs))
  {
    if inputs != [] {
      var n := |inputs| - 1;
      var i := inputs[n];
      RunsStayPossible(luks, w, inputs[..n]);
      EveryRun(luks, i.usable, i.release, AfterRuns(luks, w, inputs[..n]), i.env, i.kinds);
    }
  }

  /** A mapping left open without a mount blocks the target: every later run in which luksOpen completes fails
      and leaves it open. */
  lemma {:induction false} StuckForever(inputs: seq<Input>, n: nat)
    requires n <= |inputs| && forall i :: 0 <= i < |inputs| ==> inputs[i].env.open.completed
    ensures AfterRuns(true, World(false, true), inputs[..n]) == World(false, true)
    ensures n < |inputs| ==> !Succeeds(true, World(false, true), inputs, n)
  {
    var w := World(false, true);
    if n > 0 {
      StuckForever(inputs, n - 1);
      assert inputs[..n][..n - 1] == inputs[..n - 1];
      var i := inputs[n - 1];
      StuckRun(i.usable, i.release, i.env, i.kinds);
    }
    if n < |inputs| {
      var i := inputs[n];
      StuckRun(i.usable, i.release, i.env, i.kinds);
    }
  }

  /** That state is reached: the mapping opens, the mount fails with exit code 32, and no later run helps. */
  lemma FailedMountBlocks(release: bool, umount: Command, close: Command, leg: nat -> LegOutcome, kinds: seq<LegKind>,
        inputs: seq<Input>, n: nat)
    requires n < |inputs| && forall i :: 0 <= i < |inputs| ==> inputs[i].env.open.completed
    ensures
      var env := Outcomes(Command(true, 0, true), Command(true, 32, false), umount, close, leg);
      var r := RunSpec(true, true, release, World(false, false), env, kinds);
      && !r.ok && r.trace == [Checked(false), LuksOpen(0), Mount(32), Checked(false)]
      && r.world == World(false, true)
      && !Succeeds(true, r.world, inputs, n)
  {
    StuckForever(inputs, n);
  }

  /** A mount that took although it reported an error lets the run go on, but without a mount directory. */
  lemma UncleanMountGoesOn(luks: bool, open: Command)
    requires luks ==> Opens(open) && open.Reported() == 0
    ensures
      var g := GuardSpec(luks, true, World(false, false), open, Command(true, 32, true));
      g.ok && !g.clean
  {}

  /** A closing that was given up is taken for a success: the target is reported free with its mapping open. */
  lemma UnfinishedCloseIsReportedFree(umount: Command, code: int)
    requires umount.effect && umount.Reported() == 0
    ensures
      var r := ReleaseSpec(true, World(true, true), umount, Command(false, code, false));
      r.ok && r.world == World(false, true)
  {}
}
