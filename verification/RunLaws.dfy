/** What the specification of a run means: which legs it makes in which order, where the transfers go, what the
    messages report, and when a LUKS target cannot be opened at all. */
module RunLaws {
  import opened MultiHashes
  import opened Jobs
  import opened Substitution
  import opened Commands
  import opened Mounting
  import opened Legs
  import opened BackupRuns
  import SshTargets

  function Rank(kind: LegKind): nat {
    match kind case Before => 0 case Rsync => 1 case Pbs => 2 case After => 3
  }

  predicate Runs(script: string, o: ScriptOutcome) {
    script != "" && o.confined && o.staged && o.userFound
  }

  lemma {:induction false} OnlyCounts(kinds: seq<LegKind>, kind: LegKind, other: LegKind)
    requires Only(kinds, kind)
    ensures multiset(kinds)[other] == if other == kind then |kinds| else 0
  {
    if kinds != [] {
      OnlyCounts(kinds[1..], kind, other);
      assert kinds == [kinds[0]] + kinds[1..];
    }
  }

  /** The legs come in the order script, rsync, PBS, script; there are as many of each kind as the job asks for. */
  lemma LegOrder(job: Job, env: Environment, logs: nat)
    ensures
      var kinds := LegKinds(job, env, logs);
      forall i, k :: 0 <= i < k < |kinds| ==> Rank(kinds[i]) <= Rank(kinds[k])
    ensures
      var m := multiset(LegKinds(job, env, logs));
      && m[Before] == (if Runs(job.scriptBefore, env.before) then 1 else 0)
      && m[Rsync] == logs
      && m[Pbs] == (if job.pbs then env.items else 0)
      && m[After] == (if Runs(job.scriptAfter, env.after) then 1 else 0)
  {
    var a, b := Repeat(Before, LegsBefore(job, env)), Repeat(Rsync, logs);
    var c := Repeat(Pbs, if job.pbs then env.items else 0);
    var d := Repeat(After, if ScriptRuns(job.scriptAfter, env.after) then 1 else 0);
    assert LegKinds(job, env, logs) == a + b + c + d;
    hide Repeat, LegKinds, Rank;
    InOrder(a, b, c, d);
    Counts(a, b, c, d);
  }

  ghost predicate Only(kinds: seq<LegKind>, kind: LegKind) {
    forall i :: 0 <= i < |kinds| ==> kinds[i] == kind
  }

  lemma InOrder(a: seq<LegKind>, b: seq<LegKind>, c: seq<LegKind>, d: seq<LegKind>)
    requires Only(a, Before) && Only(b, Rsync) && Only(c, Pbs) && Only(d, After)
    ensures forall i, k :: 0 <= i < k < |a + b + c + d| ==> Rank((a + b + c + d)[i]) <= Rank((a + b + c + d)[k])
  {}

  lemma Counts(a: seq<LegKind>, b: seq<LegKind>, c: seq<LegKind>, d: seq<LegKind>)
    requires Only(a, Before) && Only(b, Rsync) && Only(c, Pbs) && Only(d, After)
    ensures
      var m := multiset(a + b + c + d);
      m[Before] == |a| && m[Rsync] == |b| && m[Pbs] == |c| && m[After] == |d|
  {
    assert multiset(a + b + c + d) == multiset(a) + multiset(b) + multiset(c) + multiset(d);
    forall kind: LegKind
      ensures multiset(a)[kind] == if kind == Before then |a| else 0
      ensures multiset(b)[kind] == if kind == Rsync then |b| else 0
      ensures multiset(c)[kind] == if kind == Pbs then |c| else 0
      ensures multiset(d)[kind] == if kind == After then |d| else 0
    {
      OnlyCounts(a, Before, kind);
      OnlyCounts(b, Rsync, kind);
      OnlyCounts(c, Pbs, kind);
      OnlyCounts(d, After, kind);
    }
  }

  /** The local transfers come first, one for each listed pair, with the expanded destination; behind them come
      those of the SSH targets, if the job has SSH sources. */
  lemma RouteAt(job: Job, env: Environment, pairs: Pairs, ls: seq<Pairs>, dir: string, i: nat, k: nat)
    requires |ls| == |job.sshTargets| && (job.ssh ==> SshTargets.Orders(ls, job.sshTargets))
    ensures
      var plan := RunPlan(job, env, pairs, ls, dir);
      && (k < |pairs| ==> plan[k] == (pairs[k].0, ConvertGeneric2Path(pairs[k].1, dir)))
      && |plan| == |pairs| + (if job.ssh then UsablePairs(job.sshTargets, env.servers, env.staged) else 0)
    ensures
      var plan, ts := RunPlan(job, env, pairs, ls, dir), job.sshTargets;
      job.ssh && i < |ts| && Usable(ts[i], env.servers, env.staged(i)) && k < |ls[i]| ==>
        var at := |pairs| + UsablePairs(ts[..i], env.servers, env.staged) + k;
        var s := env.servers[ts[i].server];
        && at < |plan|
        && plan[at] == (s.username + "@" + s.host + ":" + ls[i][k].0, ConvertGeneric2Path(ls[i][k].1, dir))
  {
    hide SshPlan, UsablePairs, ConvertGeneric2Path, Lists;
    var ts := job.sshTargets;
    if k < |pairs| {
      assert "" + pairs[k].0 == pairs[k].0;
    }
    if job.ssh {
      OneLegPerPair(ts, ls, env.servers, env.staged, dir);
      if i < |ts| && Usable(ts[i], env.servers, env.staged(i)) && k < |ls[i]| {
        SshRouteAt(ts, ls, env.servers, env.staged, dir, i, k);
      }
    }
  }

  /** The messages: first the one about the script before the transfers, last the one about the script after them,
      in between one for each skipped SSH target. The first reports success exactly if its script ran and leg 0
      returned 0, the last exactly if its script ran and the last leg returned 0. */
  lemma MessagesMean(job: Job, env: Environment, logs: nat)
    ensures
      var ms, last := RunMessages(job, env, logs), |LegKinds(job, env, logs)| - 1;
      && |ms| == (if job.scriptBefore == "" then 0 else 1) + (if job.scriptAfter == "" then 0 else 1)
                 + (if job.ssh then |Skipped(job.sshTargets, env.servers, env.staged)| else 0)
      && (job.scriptBefore != "" ==>
            (ms[0] == Executed("before") <==> Runs(job.scriptBefore, env.before) && env.LegCode(0) == 0))
      && (job.scriptAfter != "" ==>
            (ms[|ms| - 1] == Executed("after")
             <==> Runs(job.scriptAfter, env.after) && last >= 0 && env.LegCode(last) == 0))
  {
    hide ScriptMessages, SshMessages, Skipped, Executed, Repeat;
    var first := LegsBefore(job, env);
    var after := first + logs + if job.pbs then env.items else 0;
    assert |LegKinds(job, env, logs)| == after + if ScriptRuns(job.scriptAfter, env.after) then 1 else 0;
    ScriptMessageMeans("before", job.scriptBefore, env.before, env.scriptUser, env.LegCode(0));
    ScriptMessageMeans("after", job.scriptAfter, env.after, env.scriptUser, env.LegCode(after));
    OneMessagePerSkipped(job.sshTargets, env.servers, env.staged);
    var a := ScriptMessages("before", job.scriptBefore, env.before, env.scriptUser, env.LegCode(0));
    var b := if job.ssh then SshMessages(job.sshTargets, env.servers, env.staged) else [];
    var c := ScriptMessages("after", job.scriptAfter, env.after, env.scriptUser, env.LegCode(after));
    assert RunMessages(job, env, logs) == a + b + c;
    Ends(a, b, c, Executed("before"), Executed("after"));
  }

  lemma Ends(a: seq<string>, b: seq<string>, c: seq<string>, x: string, y: string)
    requires |a| <= 1 && |c| <= 1
    ensures a != [] ==> ((a + b + c)[0] == x <==> x in a)
    ensures c != [] ==> ((a + b + c)[|a + b + c| - 1] == y <==> y in c)
  {
    if a != [] {
      assert a == [a[0]] && (a + b + c)[0] == a[0];
    }
    if c != [] {
      assert c == [c[0]] && (a + b + c)[|a + b| + 0] == c[0];
    }
  }

  /** A LUKS target is opened by a run exactly if it is not mounted and the job says how: by any means but a missing
      key file. Otherwise a run on an unmounted LUKS target fails after two looks, without any command. */
  lemma NoSetupNoCommand(job: Job, env: Environment, w: World, kinds: seq<LegKind>)
    ensures
      var r := RunSpec(true, LuksUsable(job, env.keyFileExists), job.umountAfter, w, env.commands, kinds);
      var setup := job.luksType != LUKS_NONE && !(job.luksType == LUKS_FILE && !env.keyFileExists);
      && (!w.mounted && setup ==> |r.trace| > 1 && r.trace[1].LuksOpen?)
      && (w.mounted || !setup ==> forall i :: 0 <= i < |r.trace| ==> !r.trace[i].LuksOpen?)
      && (!w.mounted && !setup ==> r == Run(w, [Checked(false), Checked(false)], false, false))
  {
    hide AfterLegs, AfterLuksOpen, AfterMount, AfterUmount, AfterLuksClose;
  }
}
