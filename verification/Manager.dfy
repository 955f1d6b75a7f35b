/** The backup manager on the main thread, its worker threads, and the queued signal between them, as a
    machine of interleaved steps. Jobs may appear on disk and vanish at any time. */
module Manager {

  datatype Status = Running | Failed | Finished | Standby
  datatype Done = Done(name: string, ok: bool)
  datatype Event = Event(name: string, status: Status)

  /** `pending`: threads started whose worker has not looked its job up yet; `working`: workers inside
      the backup; `queue`: emitted `finished` signals that the main thread has not delivered yet. */
  datatype System = System(
    backups: map<string, Status>, pending: multiset<string>, working: multiset<string>,
    queue: seq<Done>, disk: set<string>, events: seq<Event>)
  {
    /** `getBackupStatus(name)`. */
    function StatusOf(n: string): Status {
      if n in backups then backups[n] else Standby
    }

    /** Workers in flight and undelivered signals for a name. */
    function Live(n: string): nat {
      pending[n] + working[n] + multiset(queue)[Done(n, true)] + multiset(queue)[Done(n, false)]
    }
  }

  datatype Step =
    | Start(name: string)                // a call of startBackup
    | Lookup(worker: string)             // a worker starts and looks its job up
    | Complete(worker: string, ok: bool) // a worker's backup returns
    | Deliver                            // the main thread runs onBackupFinished
    | Edit(disk: set<string>)            // jobs are saved or removed

  predicate Enabled(s: System, step: Step) {
    match step
    case Start(_) => true
    case Lookup(n) => n in s.pending
    case Complete(n, _) => n in s.working
    case Deliver => s.queue != []
    case Edit(_) => true
  }

  function Emit(s: System, n: string, status: Status): System {
    s.(backups := s.backups[n := status], events := s.events + [Event(n, status)])
  }

  function Next(s: System, step: Step): System
    requires Enabled(s, step)
  {
    match step
    case Start(n) =>
      if n in s.disk && s.StatusOf(n) != Running
      then Emit(s, n, Running).(pending := s.pending + multiset{n})
      else s
    case Lookup(n) =>
      if n != "" && n in s.disk
      then s.(pending := s.pending - multiset{n}, working := s.working + multiset{n})
      else s.(pending := s.pending - multiset{n}, queue := s.queue + [Done(n, false)])
    case Complete(n, ok) =>
      s.(working := s.working - multiset{n}, queue := s.queue + [Done(n, ok)])
    case Deliver =>
      var d := s.queue[0];
      Emit(s, d.name, if d.ok then Finished else Failed).(queue := s.queue[1..])
    case Edit(disk) => s.(disk := disk)
  }

  ghost predicate Initial(s: System) {
    s.backups == map[] && s.pending == multiset{} && s.working == multiset{} && s.queue == [] && s.events == []
  }

  /** The signals sent for one name, in order. */
  function History(events: seq<Event>, n: string): seq<Status> {
    if events == [] then []
    else
      var last := events[|events| - 1];
      History(events[..|events| - 1], n) + (if last.name == n then [last.status] else [])
  }

  predicate Alternates(h: seq<Status>) {
    forall i :: 0 <= i < |h| ==> if i % 2 == 0 then h[i] == Running else h[i] == Finished || h[i] == Failed
  }

  /** What holds for a name in every reachable state. */
  ghost predicate Consistent(s: System, n: string) {
    var h := History(s.events, n);
    && Alternates(h)
    && s.StatusOf(n) == (if h == [] then Standby else h[|h| - 1])
    && s.Live(n) == (if |h| % 2 == 1 then 1 else 0)
  }

  ghost predicate Inv(s: System) {
    forall n :: Consistent(s, n)
  }

  lemma HistoryEmit(s: System, n: string, status: Status, m: string)
    ensures History(Emit(s, n, status).events, m) == History(s.events, m) + if m == n then [status] else []
  {
    assert (s.events + [Event(n, status)])[..|s.events|] == s.events;
  }

  lemma EmitConsistent(s: System, n: string, status: Status, t: System, m: string)
    requires Consistent(s, m) && (m == n ==> (status == Running <==> s.StatusOf(n) != Running))
    requires status != Standby
    requires t.backups == Emit(s, n, status).backups && t.events == Emit(s, n, status).events
    requires t.Live(m) == s.Live(m) + if m != n then 0 else if status == Running then 1 else -1
    ensures Consistent(t, m)
  {
    HistoryEmit(s, n, status, m);
  }

  lemma QueueCount(s: System, d: Done, rest: seq<Done>, m: string)
    requires s.queue == [d] + rest
    ensures s.Live(m) == s.(queue := rest).Live(m) + if d.name == m then 1 else 0
  {
    assert multiset(s.queue)[Done(m, true)] == multiset(rest)[Done(m, true)] + if d == Done(m, true) then 1 else 0;
  }

  lemma QueuedLive(s: System, d: Done, m: string)
    ensures s.(queue := s.queue + [d]).Live(m) == s.Live(m) + if d.name == m then 1 else 0
  {
    assert multiset(s.queue + [d]) == multiset(s.queue) + multiset{d};
  }

  lemma Moved(a: multiset<string>, b: multiset<string>, n: string, m: string)
    requires n in a
    ensures (a - multiset{n})[m] + (b + multiset{n})[m] == a[m] + b[m]
    ensures (a - multiset{n})[m] == a[m] - if n == m then 1 else 0
  {}

  lemma WorkerStepKeepsLive(s: System, step: Step, m: string)
    requires (step.Lookup? || step.Complete?) && Enabled(s, step)
    ensures Next(s, step).Live(m) == s.Live(m)
  {
    match step {
      case Lookup(n) =>
        Moved(s.pending, s.working, n, m);
        QueuedLive(s.(pending := s.pending - multiset{n}), Done(n, false), m);
      case Complete(n, ok) =>
        Moved(s.working, s.pending, n, m);
        QueuedLive(s.(working := s.working - multiset{n}), Done(n, ok), m);
    }
  }

  lemma StartLive(s: System, n: string, m: string)
    ensures s.(pending := s.pending + multiset{n}).Live(m) == s.Live(m) + if m == n then 1 else 0
  {}

  lemma SameConsistent(s: System, t: System, m: string)
    requires Consistent(s, m) && t.backups == s.backups && t.events == s.events && t.Live(m) == s.Live(m)
    ensures Consistent(t, m)
  {}

  lemma StartKeepsConsistent(s: System, n: string, m: string)
    requires Consistent(s, m)
    ensures Consistent(Next(s, Start(n)), m)
  {
    hide Consistent;
    var t := Next(s, Start(n));
    if t != s {
      StartLive(s, n, m);
      var e := s.(pending := t.pending);
      assert t.Live(m) == e.Live(m);
      EmitConsistent(s, n, Running, t, m);
    }
  }

  lemma StepKeepsConsistent(s: System, step: Step, m: string)
    requires Consistent(s, m) && Enabled(s, step)
    ensures Consistent(Next(s, step), m)
  {
    hide Consistent;
    var t := Next(s, step);
    match step {
      case Start(n) =>
        StartKeepsConsistent(s, n, m);
      case Lookup(_) =>
        WorkerStepKeepsLive(s, step, m);
        SameConsistent(s, t, m);
      case Complete(_, _) =>
        WorkerStepKeepsLive(s, step, m);
        SameConsistent(s, t, m);
      case Deliver =>
        DeliverKeepsConsistent(s, m);
      case Edit(_) =>
        SameConsistent(s, t, m);
    }
  }

  lemma DeliverKeepsConsistent(s: System, m: string)
    requires Consistent(s, m) && s.queue != []
    ensures Consistent(Next(s, Deliver), m)
  {
    var d := s.queue[0];
    assert s.queue == [d] + s.queue[1..];
    QueueCount(s, d, s.queue[1..], m);
    if d.name == m {
      assert s.Live(m) == 1;
    }
    hide Consistent;
    var t := Next(s, Deliver);
    assert t.Live(m) == s.(queue := s.queue[1..]).Live(m);
    EmitConsistent(s, d.name, if d.ok then Finished else Failed, t, m);
  }

  lemma StepKeepsInv(s: System, step: Step)
    requires Inv(s) && Enabled(s, step)
    ensures Inv(Next(s, step))
  {
    forall m
      ensures Consistent(Next(s, step), m)
    {
      assert Consistent(s, m);
      StepKeepsConsistent(s, step, m);
    }
  }

  lemma LiveStatus(s: System, n: string)
    requires Inv(s)
    ensures s.StatusOf(n) == Running <==> s.Live(n) == 1
    ensures s.StatusOf(n) != Running <==> s.Live(n) == 0
  {
    assert Consistent(s, n);
  }

  ghost predicate Run(s: System, steps: seq<Step>, t: System)
    decreases |steps|
  {
    if steps == [] then s == t else Enabled(s, steps[0]) && Run(Next(s, steps[0]), steps[1..], t)
  }

  lemma {:induction false} RunKeepsInv(s: System, steps: seq<Step>, t: System)
    requires Inv(s) && Run(s, steps, t)
    ensures Inv(t)
    decreases |steps|
  {
    if steps != [] {
      StepKeepsInv(s, steps[0]);
      RunKeepsInv(Next(s, steps[0]), steps[1..], t);
    }
  }

  /** In every reachable state and for every name: the status is running exactly if one worker is in
      flight or one signal undelivered, and otherwise there is none; the signals alternate running and
      finished or failed; the status is the last signal. */
  lemma ReachableIsConsistent(s: System, steps: seq<Step>, t: System, n: string)
    requires Initial(s) && Run(s, steps, t)
    ensures t.StatusOf(n) == Running <==> t.Live(n) == 1
    ensures t.StatusOf(n) != Running <==> t.Live(n) == 0
    ensures Alternates(History(t.events, n))
    ensures
      var h := History(t.events, n);
      t.StatusOf(n) == if h == [] then Standby else h[|h| - 1]
  {
    assert Inv(s) by {
      forall m
        ensures Consistent(s, m)
      {}
    }
    RunKeepsInv(s, steps, t);
    assert Consistent(t, n);
  }

  /** Two workers never overlap on one name. */
  lemma NoOverlap(s: System, steps: seq<Step>, t: System, n: string)
    requires Initial(s) && Run(s, steps, t)
    ensures t.pending[n] + t.working[n] <= 1
    ensures t.pending[n] + t.working[n] == 1 ==> Done(n, true) !in t.queue && Done(n, false) !in t.queue
  {
    ReachableIsConsistent(s, steps, t, n);
  }

  // ----- What the signals say -----

  /** Whether a worker of the name ends with a step, and how: a lookup that finds no job fails. */
  function OutcomesOf(disk: set<string>, step: Step, n: string): seq<bool> {
    match step
    case Lookup(m) => if m == n && !(n != "" && n in disk) then [false] else []
    case Complete(m, ok) => if m == n then [ok] else []
    case _ => []
  }

  /** How the workers of a name ended, in order, read off the steps of a run: a worker that finds no job fails; one
      that does ends as its backup returned. `disk` holds the jobs when the run begins. */
  function Outcomes(disk: set<string>, steps: seq<Step>, n: string): seq<bool>
    decreases |steps|
  {
    if steps == [] then []
    else OutcomesOf(disk, steps[0], n) + Outcomes(if steps[0].Edit? then steps[0].disk else disk, steps[1..], n)
  }

  /** The ends among the signals of a name. */
  function Ends(h: seq<Status>): seq<bool> {
    if h == [] then []
    else
      var last := h[|h| - 1];
      Ends(h[..|h| - 1]) + (if last == Running then [] else [last == Finished])
  }

  /** The signals of a name that are still queued. */
  function Queued(queue: seq<Done>, n: string): seq<bool>
    decreases |queue|
  {
    if queue == [] then [] else (if queue[0].name == n then [queue[0].ok] else []) + Queued(queue[1..], n)
  }

  /** What has been told of a name, and what is queued to be told. */
  function Told(s: System, n: string): seq<bool> {
    Ends(History(s.events, n)) + Queued(s.queue, n)
  }

  lemma {:induction false} QueuedAppend(queue: seq<Done>, d: Done, n: string)
    ensures Queued(queue + [d], n) == Queued(queue, n) + if d.name == n then [d.ok] else []
    decreases |queue|
  {
    var own := if d.name == n then [d.ok] else [];
    if queue == [] {
      assert (queue + [d])[1..] == [] && own + [] == [] + own;
    } else {
      assert (queue + [d])[1..] == queue[1..] + [d] && (queue + [d])[0] == queue[0];
      QueuedAppend(queue[1..], d, n);
      var first := if queue[0].name == n then [queue[0].ok] else [];
      Associate(first, Queued(queue[1..], n), own);
    }
  }

  lemma Associate(a: seq<bool>, b: seq<bool>, c: seq<bool>)
    ensures a + (b + c) == a + b + c
  {}

  lemma EndsAppend(h: seq<Status>, status: Status)
    ensures Ends(h + [status]) == Ends(h) + if status == Running then [] else [status == Finished]
  {
    assert (h + [status])[..|h|] == h;
  }

  lemma EmitTells(s: System, m: string, status: Status, n: string)
    ensures Ends(History(Emit(s, m, status).events, n)) ==
            Ends(History(s.events, n)) + if m == n && status != Running then [status == Finished] else []
  {
    var h := History(s.events, n);
    HistoryEmit(s, m, status, n);
    EndsAppend(h, status);
    assert h + [] == h && Ends(h) + [] == Ends(h);
  }

  lemma QueueTells(s: System, t: System, d: Done, n: string)
    requires t.events == s.events && t.queue == s.queue + [d]
    ensures Told(t, n) == Told(s, n) + if d.name == n then [d.ok] else []
  {
    hide Ends, History, Queued;
    QueuedAppend(s.queue, d, n);
  }

  lemma DeliverTells(s: System, n: string)
    requires s.queue != []
    ensures Told(Next(s, Deliver), n) == Told(s, n)
  {
    hide Ends, History;
    var d, told := s.queue[0], Ends(History(s.events, n));
    var own := if d.name == n then [d.ok] else [];
    EmitTells(s, d.name, if d.ok then Finished else Failed, n);
    hide Queued;
    NextQueued(s.queue, n);
    Associate(told, own, Queued(s.queue[1..], n));
  }

  lemma NextQueued(queue: seq<Done>, n: string)
    requires queue != []
    ensures Queued(queue, n) == (if queue[0].name == n then [queue[0].ok] else []) + Queued(queue[1..], n)
  {}

  lemma StartTells(s: System, m: string, n: string)
    ensures Told(Next(s, Start(m)), n) == Told(s, n)
  {
    hide Ends, History, Queued;
    EmitTells(s, m, Running, n);
    assert Ends(History(s.events, n)) + [] == Ends(History(s.events, n));
  }

  /** One step tells or queues as many outcomes as it has. */
  lemma StepTells(s: System, step: Step, n: string)
    requires Enabled(s, step)
    ensures Told(Next(s, step), n) == Told(s, n) + OutcomesOf(s.disk, step, n)
    ensures Next(s, step).disk == if step.Edit? then step.disk else s.disk
  {
    assert Told(s, n) + [] == Told(s, n);
    hide Queued, Ends, History;
    match step {
      case Start(m) =>
        StartTells(s, m, n);
      case Lookup(m) =>
        if !(m != "" && m in s.disk) {
          QueueTells(s, Next(s, step), Done(m, false), n);
        }
      case Complete(m, ok) =>
        QueueTells(s, Next(s, step), Done(m, ok), n);
      case Deliver =>
        DeliverTells(s, n);
      case Edit(_) =>
    }
  }

  lemma {:induction false} RunTells(s: System, steps: seq<Step>, t: System, n: string)
    requires Run(s, steps, t)
    ensures Told(t, n) == Told(s, n) + Outcomes(s.disk, steps, n)
    decreases |steps|
  {
    hide Told, Outcomes, Next;
    if steps == [] {
      assert Outcomes(s.disk, [], n) == [] by { NoOutcomes(s.disk, n); }
    } else {
      StepTells(s, steps[0], n);
      SomeOutcomes(s.disk, steps, n);
      RunTells(Next(s, steps[0]), steps[1..], t, n);
    }
  }

  lemma SomeOutcomes(disk: set<string>, steps: seq<Step>, n: string)
    requires steps != []
    ensures Outcomes(disk, steps, n) ==
            OutcomesOf(disk, steps[0], n)
            + Outcomes(if steps[0].Edit? then steps[0].disk else disk, steps[1..], n)
  {}

  lemma NoOutcomes(disk: set<string>, n: string)
    ensures Outcomes(disk, [], n) == []
  {}

  lemma {:induction false} EndAt(h: seq<Status>, k: nat)
    requires Alternates(h)
    ensures |Ends(h)| == |h| / 2
    ensures 2 * k + 1 < |h| ==> Ends(h)[k] == (h[2 * k + 1] == Finished)
  {
    if h != [] {
      var n := |h| - 1;
      EndAt(h[..n], k);
      assert h[n] == Running <==> n % 2 == 0;
    }
  }

  /** In every run from an initial state, the signals of a name tell how its workers ended: after the `k`-th `running`
      comes `finished` exactly if the `k`-th worker found its job and its backup returned true, and otherwise
      `failed`. Every worker that has ended is told or queued. */
  lemma SignalsTellOutcomes(s: System, steps: seq<Step>, t: System, n: string, k: nat)
    requires Initial(s) && Run(s, steps, t)
    ensures
      var h, o := History(t.events, n), Outcomes(s.disk, steps, n);
      && |o| == |h| / 2 + |Queued(t.queue, n)|
      && (2 * k + 1 < |h| ==>
            h[2 * k] == Running && k < |o| && h[2 * k + 1] == if o[k] then Finished else Failed)
  {
    hide Outcomes, Run, Inv, Consistent, Ends, Queued, Alternates;
    ReachableIsConsistent(s, steps, t, n);
    RunTells(s, steps, t, n);
    NothingTold(s, n);
    var h, o := History(t.events, n), Outcomes(s.disk, steps, n);
    assert [] + o == o;
    ToldInOrder(h, Queued(t.queue, n), k);
  }

  lemma NothingTold(s: System, n: string)
    requires Initial(s)
    ensures Told(s, n) == []
  {}

  lemma ToldInOrder(h: seq<Status>, queued: seq<bool>, k: nat)
    requires Alternates(h)
    ensures
      var o := Ends(h) + queued;
      && |o| == |h| / 2 + |queued|
      && (2 * k + 1 < |h| ==>
            h[2 * k] == Running && k < |o| && h[2 * k + 1] == if o[k] then Finished else Failed)
  {
    EndAt(h, k);
    if 2 * k + 1 < |h| {
      assert (2 * k + 1) % 2 == 1 && (2 * k) % 2 == 0;
      assert (Ends(h) + queued)[k] == Ends(h)[k];
    }
  }

  // ----- Progress -----

  /** Steps still to come if nothing new is started. */
  function Work(s: System): nat {
    3 * |s.pending| + 2 * |s.working| + |s.queue|
  }

  lemma WorkDecreases(s: System, step: Step)
    requires Enabled(s, step) && !step.Start? && !step.Edit?
    ensures Work(Next(s, step)) < Work(s)
  {}

  predicate Idle(s: System) {
    s.pending == multiset{} && s.working == multiset{} && s.queue == []
  }

  lemma IdleMeansDone(s: System)
    requires Inv(s)
    ensures Idle(s) ==> forall n :: s.StatusOf(n) != Running
    ensures (forall n :: s.StatusOf(n) != Running) ==> Idle(s)
  {
    if Idle(s) {
      forall n
        ensures s.StatusOf(n) != Running
      {
        assert Consistent(s, n);
      }
    }
    if !Idle(s) {
      var n :| s.Live(n) > 0 by {
        if s.pending != multiset{} {
          var n :| n in s.pending;
          assert s.Live(n) > 0;
        } else if s.working != multiset{} {
          var n :| n in s.working;
          assert s.Live(n) > 0;
        } else {
          QueueCount(s, s.queue[0], s.queue[1..], s.queue[0].name);
          assert s.Live(s.queue[0].name) > 0;
        }
      }
      assert Consistent(s, n);
    }
  }

  // ----- The running program -----

  /** `tiBackupJobWorker`; `emitted` records its `finished` signals. */
  class JobWorker {
    var jobname: string
    var emitted: seq<bool>

    constructor ()
      ensures jobname == "" && emitted == []
    {
      jobname, emitted := "", [];
    }

    method SetJobName(name: string)
      modifies this`jobname
      ensures jobname == name
    {
      jobname := name;
    }

    /** On every path exactly one signal: false without a name or a job, else the backup's result. */
    method Process(disk: set<string>, result: bool)
      modifies this`emitted
      ensures emitted == old(emitted) + [jobname != "" && jobname in disk && result]
    {
      if jobname == "" {
        emitted := emitted + [false];
        return;
      }
      if jobname !in disk {
        emitted := emitted + [false];
        return;
      }
      emitted := emitted + [result];
    }
  }

  /** What `startBackupThread` sets going for a job of this name: its worker emits one signal, and its value is
      true only if a job of the name is found and its backup succeeds. */
  method StartBackupThread(name: string, disk: set<string>, result: bool) returns (worker: JobWorker)
    ensures worker.jobname == name && worker.emitted == [name != "" && name in disk && result]
  {
    worker := new JobWorker();
    worker.SetJobName(name);
    worker.Process(disk, result);
  }

  /** A worker's steps in the machine queue the one signal that `Process` emits. */
  lemma WorkerMatchesMachine(s: System, n: string, result: bool)
    requires n in s.pending
    ensures
      var found := n != "" && n in s.disk;
      var t := if found then Next(Next(s, Lookup(n)), Complete(n, result)) else Next(s, Lookup(n));
      && t.queue == s.queue + [Done(n, n != "" && n in s.disk && result)]
      && t.pending == s.pending - multiset{n} && t.working == s.working
  {
    assert (s.working + multiset{n}) - multiset{n} == s.working;
  }

  /** `backupManager` with the threads it started and the event queue of its thread. */
  class BackupManager {
    var backups: map<string, Status>
    var pending: multiset<string>
    var working: multiset<string>
    var queue: seq<Done>
    var disk: set<string>
    var events: seq<Event>

    ghost function State(): System
      reads this
    {
      System(backups, pending, working, queue, disk, events)
    }

    constructor (jobs: set<string>)
      ensures Initial(State()) && Inv(State()) && disk == jobs
    {
      backups, pending, working, queue, disk, events := map[], multiset{}, multiset{}, [], jobs, [];
    }

    /** Accepted exactly if the job exists and is not running. */
    method StartBackup(name: string) returns (started: bool)
      requires Inv(State())
      modifies this`backups, this`pending, this`events
      ensures State() == Next(old(State()), Start(name)) && Inv(State())
      ensures started <==> name in disk && old(State()).Live(name) == 0
      ensures !started ==> State() == old(State())
      ensures started ==>
        && pending == old(pending) + multiset{name} && events == old(events) + [Event(name, Running)]
        && State().StatusOf(name) == Running
    {
      StepKeepsInv(State(), Start(name));
      LiveStatus(State(), name);
      hide Inv, Consistent;
      if name !in disk {
        return false;
      }
      if name !in backups || backups[name] != Running {
        backups := backups[name := Running];
        events := events + [Event(name, Running)];
        pending := pending + multiset{name};
        return true;
      }
      return false;
    }

    method OnBackupFinished(name: string, ok: bool)
      modifies this`backups, this`events
      ensures State() == Emit(old(State()), name, if ok then Finished else Failed)
      ensures State().StatusOf(name) == if ok then Finished else Failed
      ensures forall m :: m != name ==> State().StatusOf(m) == old(State()).StatusOf(m)
      ensures forall m :: m != name ==> History(events, m) == History(old(events), m)
    {
      var status := if ok then Finished else Failed;
      forall m | m != name
        ensures History(events + [Event(name, status)], m) == History(events, m)
      {
        HistoryEmit(State(), name, status, m);
      }
      backups := backups[name := status];
      events := events + [Event(name, status)];
    }

    method GetBackupStatus(name: string) returns (r: Status)
      requires Inv(State())
      ensures r == State().StatusOf(name)
      ensures r == Running <==> State().Live(name) == 1
    {
      LiveStatus(State(), name);
      r := if name in backups then backups[name] else Standby;
    }

    /** A started worker reaches its job lookup. */
    method WorkerLookup(n: string)
      requires Inv(State()) && n in pending
      modifies this`pending, this`working, this`queue
      ensures State() == Next(old(State()), Lookup(n)) && Inv(State())
    {
      StepKeepsInv(State(), Lookup(n));
      pending := pending - multiset{n};
      if n != "" && n in disk {
        working := working + multiset{n};
      } else {
        queue := queue + [Done(n, false)];
      }
    }

    method WorkerComplete(n: string, ok: bool)
      requires Inv(State()) && n in working
      modifies this`working, this`queue
      ensures State() == Next(old(State()), Complete(n, ok)) && Inv(State())
    {
      StepKeepsInv(State(), Complete(n, ok));
      working := working - multiset{n};
      queue := queue + [Done(n, ok)];
    }

    /** The event loop delivers the oldest signal. */
    method DeliverNext()
      requires Inv(State()) && queue != []
      modifies this`backups, this`queue, this`events
      ensures State() == Next(old(State()), Deliver) && Inv(State())
      ensures
        var d, status := old(queue)[0], if old(queue)[0].ok then Finished else Failed;
        && State().StatusOf(d.name) == status && events == old(events) + [Event(d.name, status)]
        && queue == old(queue)[1..]
        && forall m :: m != d.name ==> State().StatusOf(m) == old(State()).StatusOf(m)
    {
      StepKeepsInv(State(), Deliver);
      var d := queue[0];
      queue := queue[1..];
      OnBackupFinished(d.name, d.ok);
    }

    /** The event loop and the workers, in any order, until nothing is left to do: this terminates, and
        afterwards no job is running. */
    method Drain()
      requires Inv(State())
      modifies this
      ensures Inv(State()) && Idle(State()) && disk == old(disk)
      ensures forall n :: State().StatusOf(n) != Running
    {
      hide Inv, Next, Work;
      while pending != multiset{} || working != multiset{} || queue != []
        invariant Inv(State()) && disk == old(disk)
        decreases Work(State())
      {
        if
        case pending != multiset{} =>
          var n :| n in pending;
          WorkDecreases(State(), Lookup(n));
          WorkerLookup(n);
        case working != multiset{} =>
          var n :| n in working;
          var ok: bool := *;
          WorkDecreases(State(), Complete(n, ok));
          WorkerComplete(n, ok);
        case queue != [] =>
          WorkDecreases(State(), Deliver);
          DeliverNext();
      }
      IdleMeansDone(State());
    }
  }
}
