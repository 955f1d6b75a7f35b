/** The rsync legs of a run: which transfers it makes, what it reports, and where it keeps their logs. */
module Legs {
  import opened MultiHashes
  import opened Options
  import opened Substitution
  import SshTargets

  type Pairs = seq<(string, string)>

  datatype Server = Server(name: string, username: string, host: string, hostkey: string)

  /** `path` is the archived rsync log, empty if logs are not kept. */
  datatype Log = Log(source: string, destination: string, path: string, code: int)

  type Route = (string, string)

  function Routes(logs: seq<Log>): (r: seq<Route>)
    ensures |r| == |logs|
    ensures forall i :: 0 <= i < |logs| ==> r[i] == (logs[i].source, logs[i].destination)
  {
    if logs == [] then [] else [(logs[0].source, logs[0].destination)] + Routes(logs[1..])
  }

  /** Sources get a prefix, destinations their mount directory. */
  function Plan(prefix: string, pairs: Pairs, dir: string): (r: seq<Route>)
    ensures |r| == |pairs|
    ensures forall i :: 0 <= i < |pairs| ==> r[i] == (prefix + pairs[i].0, ConvertGeneric2Path(pairs[i].1, dir))
  {
    if pairs == [] then []
    else [(prefix + pairs[0].0, ConvertGeneric2Path(pairs[0].1, dir))] + Plan(prefix, pairs[1..], dir)
  }

  function RemotePrefix(s: Server): string {
    s.username + "@" + s.host + ":"
  }

  /** The message that a skipped SSH target leaves; a target without one is backed up. */
  function SkipMessage(t: SshTargets.Target, servers: map<string, Server>, staged: bool): Option<string> {
    if t.server !in servers then Some("SSH server " + t.server + " not found in config")
    else
      var s := servers[t.server];
      if s.hostkey == "" then
        Some("SSH server " + s.name + " (" + s.host + ") has no pinned host key; run 'Test connection' first")
      else if !staged then Some("Could not stage temporary known_hosts for SSH backup.")
      else None
  }

  function TargetPlan(t: SshTargets.Target, l: Pairs, servers: map<string, Server>, staged: bool,
        dir: string): seq<Route> {
    if SkipMessage(t, servers, staged).Some? then [] else Plan(RemotePrefix(servers[t.server]), l, dir)
  }

  function TargetMessages(t: SshTargets.Target, servers: map<string, Server>, staged: bool): seq<string> {
    match SkipMessage(t, servers, staged) case Some(m) => [m] case None => []
  }

  function SshPlan(ts: seq<SshTargets.Target>, ls: seq<Pairs>, servers: map<string, Server>,
        staged: nat -> bool, dir: string): seq<Route>
    requires |ls| == |ts|
    decreases |ts|
  {
    if ts == [] then []
    else
      var n := |ts| - 1;
      SshPlan(ts[..n], ls[..n], servers, staged, dir) + TargetPlan(ts[n], ls[n], servers, staged(n), dir)
  }

  function SshMessages(ts: seq<SshTargets.Target>, servers: map<string, Server>, staged: nat -> bool): seq<string> {
    if ts == [] then []
    else
      var n := |ts| - 1;
      SshMessages(ts[..n], servers, staged) + TargetMessages(ts[n], servers, staged(n))
  }

  lemma SshStep(ts: seq<SshTargets.Target>, i: nat, ls: seq<Pairs>, l: Pairs, servers: map<string, Server>,
        staged: nat -> bool, dir: string)
    requires i < |ts| && |ls| == i
    ensures SshPlan(ts[..i + 1], ls + [l], servers, staged, dir) ==
            SshPlan(ts[..i], ls, servers, staged, dir) + TargetPlan(ts[i], l, servers, staged(i), dir)
    ensures SshMessages(ts[..i + 1], servers, staged) ==
            SshMessages(ts[..i], servers, staged) + TargetMessages(ts[i], servers, staged(i))
  {
    assert ts[..i + 1][..i] == ts[..i] && (ls + [l])[..i] == ls;
  }

  // ----- What the plan and the messages count -----

  /** A target is backed up if its server is known, has a pinned host key, and the key file was staged. */
  predicate Usable(t: SshTargets.Target, servers: map<string, Server>, staged: bool) {
    t.server in servers && servers[t.server].hostkey != "" && staged
  }

  function Skipped(ts: seq<SshTargets.Target>, servers: map<string, Server>, staged: nat -> bool): set<nat> {
    set i: nat | 0 <= i < |ts| && !Usable(ts[i], servers, staged(i))
  }

  /** Each skipped target, and no other, adds one message. */
  lemma {:induction false} OneMessagePerSkipped(ts: seq<SshTargets.Target>, servers: map<string, Server>,
        staged: nat -> bool)
    ensures |SshMessages(ts, servers, staged)| == |Skipped(ts, servers, staged)|
  {
    hide Usable, TargetMessages, Skipped;
    NoneSkipped(servers, staged);
    if ts != [] {
      var n := |ts| - 1;
      OneMessagePerSkipped(ts[..n], servers, staged);
      SkippedStep(ts, servers, staged);
      MessageIffSkipped(ts[n], servers, staged(n));
    }
  }

  lemma NoneSkipped(servers: map<string, Server>, staged: nat -> bool)
    ensures |Skipped([], servers, staged)| == 0
  {
    assert Skipped([], servers, staged) == {};
  }

  lemma MessageIffSkipped(t: SshTargets.Target, servers: map<string, Server>, staged: bool)
    ensures |TargetMessages(t, servers, staged)| == if Usable(t, servers, staged) then 0 else 1
  {}

  lemma SkippedStep(ts: seq<SshTargets.Target>, servers: map<string, Server>, staged: nat -> bool)
    requires ts != []
    ensures
      var n := |ts| - 1;
      |Skipped(ts, servers, staged)| ==
        |Skipped(ts[..n], servers, staged)| + if Usable(ts[n], servers, staged(n)) then 0 else 1
  {
    hide Usable;
    var n := |ts| - 1;
    var before, all := Skipped(ts[..n], servers, staged), Skipped(ts, servers, staged);
    if Usable(ts[n], servers, staged(n)) {
      assert all == before;
    } else {
      assert all == before + {n} && n !in before;
    }
  }

  /** The folder pairs of the targets that are backed up. */
  ghost function UsablePairs(ts: seq<SshTargets.Target>, servers: map<string, Server>, staged: nat -> bool): nat {
    if ts == [] then 0
    else
      var n := |ts| - 1;
      UsablePairs(ts[..n], servers, staged) + if Usable(ts[n], servers, staged(n)) then Size(ts[n].dirs) else 0
  }

  /** Each pair of each target that is backed up, and no other, makes one transfer. */
  lemma {:induction false} OneLegPerPair(ts: seq<SshTargets.Target>, ls: seq<Pairs>, servers: map<string, Server>,
        staged: nat -> bool, dir: string)
    requires SshTargets.Orders(ls, ts)
    ensures |SshPlan(ts, ls, servers, staged, dir)| == UsablePairs(ts, servers, staged)
    decreases |ts|
  {
    if ts != [] {
      var n := |ts| - 1;
      OneLegPerPair(ts[..n], ls[..n], servers, staged, dir);
      ListingSize(ls[n], ts[n].dirs);
    }
  }

  lemma Suffix(a: string, b: string)
    ensures Contains(a + b, b)
  {
    assert (a + b)[|a|..] == b;
  }

  lemma Told(a: string, b: string, c: string, d: string, e: string)
    ensures Contains(a + b + c, b + c) && Contains(a + b + c + d + e, b + c + d + e)
  {
    Suffix(a, b + c);
    Suffix(a, b + c + d + e);
    assert a + b + c == a + (b + c) && a + b + c + d + e == a + (b + c + d + e);
  }

  /** A skipped target is reported with what is wrong: a server that is not known, one without a pinned key, or a
      key file that could not be staged, in this order of precedence. */
  lemma SkipReason(t: SshTargets.Target, servers: map<string, Server>, staged: bool)
    ensures
      var m := SkipMessage(t, servers, staged);
      if t.server !in servers then m.Some? && Contains(m.value, t.server + " not found in config")
      else
        var s := servers[t.server];
        if s.hostkey == "" then
          m.Some? && Contains(m.value,
            s.name + " (" + s.host + ") has no pinned host key; run 'Test connection' first")
        else if !staged then m == Some("Could not stage temporary known_hosts for SSH backup.")
        else m == None
  {
    hide Contains;
    if t.server !in servers {
      Told("SSH server ", t.server, " not found in config", "", "");
    } else {
      var s := servers[t.server];
      Told("SSH server ", s.name, " (", s.host, ") has no pinned host key; run 'Test connection' first");
    }
  }

  lemma SshPlanStep(ts: seq<SshTargets.Target>, ls: seq<Pairs>, servers: map<string, Server>, staged: nat -> bool,
        dir: string)
    requires ts != [] && |ls| == |ts|
    ensures
      var n := |ts| - 1;
      SshPlan(ts, ls, servers, staged, dir) ==
        SshPlan(ts[..n], ls[..n], servers, staged, dir) + TargetPlan(ts[n], ls[n], servers, staged(n), dir)
  {}

  lemma TargetRoute(t: SshTargets.Target, l: Pairs, servers: map<string, Server>, staged: bool, dir: string, k: nat)
    requires Usable(t, servers, staged) && k < |l|
    ensures
      var plan, s := TargetPlan(t, l, servers, staged, dir), servers[t.server];
      && k < |plan|
      && plan[k] == (s.username + "@" + s.host + ":" + l[k].0, ConvertGeneric2Path(l[k].1, dir))
  {
    hide ConvertGeneric2Path;
  }

  /** The transfer of each pair of each target that is backed up: its place in the plan, the remote folder as
      `user@host:folder`, and the expanded destination. */
  lemma {:induction false} SshRouteAt(ts: seq<SshTargets.Target>, ls: seq<Pairs>, servers: map<string, Server>,
        staged: nat -> bool, dir: string, i: nat, k: nat)
    requires SshTargets.Orders(ls, ts) && i < |ts| && Usable(ts[i], servers, staged(i)) && k < |ls[i]|
    ensures
      var plan, at := SshPlan(ts, ls, servers, staged, dir), UsablePairs(ts[..i], servers, staged) + k;
      var s := servers[ts[i].server];
      && at < |plan|
      && plan[at] == (s.username + "@" + s.host + ":" + ls[i][k].0, ConvertGeneric2Path(ls[i][k].1, dir))
    decreases |ts|
  {
    hide ConvertGeneric2Path, SshPlan, TargetPlan, UsablePairs, Lists;
    var n := |ts| - 1;
    SshPlanStep(ts, ls, servers, staged, dir);
    if i < n {
      SshRouteAt(ts[..n], ls[..n], servers, staged, dir, i, k);
      assert ts[..n][..i] == ts[..i];
    } else {
      OneLegPerPair(ts[..n], ls[..n], servers, staged, dir);
      TargetRoute(ts[n], ls[n], servers, staged(n), dir, k);
    }
  }

  // ----- Scripts -----

  /** What the environment answers: the script lies in the scripts directory, its copy was staged, and the
      user it runs as exists. */
  datatype ScriptOutcome = ScriptOutcome(confined: bool, staged: bool, userFound: bool)

  predicate ScriptRuns(script: string, o: ScriptOutcome) {
    script != "" && o.confined && o.staged && o.userFound
  }

  /** The one message about a script; a job without the script has none. `phase` is "before" or "after". */
  function ScriptMessages(phase: string, script: string, o: ScriptOutcome, user: string, code: int): seq<string> {
    if script == "" then []
    else if !o.confined then
      ["Script " + phase + " Backup <" + script + "> is outside the scripts directory or missing, skipping"]
    else if !o.staged then ["Script " + phase + " Backup could not be staged."]
    else if !o.userFound then
      ["Script " + phase + " Backup NOT run: run-user '" + user + "' not found (refusing to run as root)."]
    else if code != 0 then ["Script " + phase + " Backup was not executed properly."]
    else ["Script " + phase + " Backup was executed properly."]
  }

  function Executed(phase: string): string {
    "Script " + phase + " Backup was executed properly."
  }

  function NotExecuted(phase: string): string {
    "Script " + phase + " Backup was not executed properly."
  }

  lemma DifferAt(head: string, x: string, t: string, y: string, u: string, k: nat)
    requires k < |x| && k < |y| && x[k] != y[k]
    ensures head + x + t != head + y + u && head + x + t != head + y && head + x != head + y
  {
    assert (head + x + t)[|head| + k] == x[k] && (head + y + u)[|head| + k] == y[k];
    assert (head + x)[|head| + k] == x[k] && (head + y)[|head| + k] == y[k];
  }

  /** A job with the script has exactly one message about it. That one reports success exactly if the script ran and
      returned 0, and a failure exactly if it ran and returned something else. */
  lemma ScriptMessageMeans(phase: string, script: string, o: ScriptOutcome, user: string, code: int)
    ensures
      var ms := ScriptMessages(phase, script, o, user, code);
      var runs := script != "" && o.confined && o.staged && o.userFound;
      && |ms| == (if script == "" then 0 else 1)
      && (Executed(phase) in ms <==> runs && code == 0)
      && (NotExecuted(phase) in ms <==> runs && code != 0)
  {
    var head, done, failed := "Script " + phase, " Backup was executed properly.", " Backup was not executed properly.";
    assert done[8] == failed[8] == 'w' && done[12] == 'e' && failed[12] == 'n';
    var outside, unstaged, noUser := " Backup <", " Backup could not be staged.", " Backup NOT run: run-user '";
    assert outside[8] == '<' && unstaged[8] == 'c' && noUser[8] == 'N';
    DifferAt(head, done, "", failed, "", 12);
    forall x | x in {done, failed}
      ensures forall t: string :: head + outside + t != head + x && head + noUser + t != head + x
      ensures head + unstaged != head + x
    {
      DifferAt(head, unstaged, "", x, "", 8);
      forall t: string
        ensures head + outside + t != head + x && head + noUser + t != head + x
      {
        DifferAt(head, outside, t, x, "", 8);
        DifferAt(head, noUser, t, x, "", 8);
      }
    }
    Joined(head, outside, script, "> is outside the scripts directory or missing, skipping");
    Joined(head, noUser, user, "' not found (refusing to run as root).");
  }

  lemma Joined(a: string, b: string, c: string, d: string)
    ensures a + b + c + d == a + b + (c + d)
  {}

  /** Why a script did not run: it lies outside the scripts directory, its copy could not be staged, or its user does
      not exist, in this order of precedence. */
  lemma ScriptRefusal(phase: string, script: string, o: ScriptOutcome, user: string, code: int)
    requires script != ""
    ensures
      var m := ScriptMessages(phase, script, o, user, code)[0];
      if !o.confined then
        Contains(m, " Backup <" + script + "> is outside the scripts directory or missing, skipping")
      else if !o.staged then m == "Script " + phase + " Backup could not be staged."
      else !o.userFound ==>
        Contains(m, " Backup NOT run: run-user '" + user + "' not found (refusing to run as root).")
  {
    hide Contains;
    Told("Script " + phase, " Backup <", script, "> is outside the scripts directory or missing, skipping", "");
    Told("Script " + phase, " Backup NOT run: run-user '", user, "' not found (refusing to run as root).", "");
    NothingAfter("Script " + phase + " Backup <" + script + "> is outside the scripts directory or missing, skipping",
                 " Backup <" + script + "> is outside the scripts directory or missing, skipping");
    NothingAfter("Script " + phase + " Backup NOT run: run-user '" + user + "' not found (refusing to run as root).",
                 " Backup NOT run: run-user '" + user + "' not found (refusing to run as root).");
  }

  lemma NothingAfter(s: string, t: string)
    ensures s + "" == s && t + "" == t
  {}

  // ----- Log file names -----

  function Digit(d: nat): char
    requires d < 10
  {
    ['0', '1', '2', '3', '4', '5', '6', '7', '8', '9'][d]
  }

  function Decimal(n: nat): (r: string)
    ensures r != ""
  {
    if n < 10 then [Digit(n)] else Decimal(n / 10) + [Digit(n % 10)]
  }

  /** What a string of decimal digits reads as. */
  function Read(digits: string): int {
    if digits == "" then 0
    else
      var n := |digits| - 1;
      10 * Read(digits[..n]) + (digits[n] as int - '0' as int)
  }

  lemma {:induction false} DecimalReads(n: nat)
    ensures Read(Decimal(n)) == n
    ensures |Decimal(n)| > 1 ==> Decimal(n)[0] != '0'
  {
    var d := Decimal(n);
    if n < 10 {
      assert d[..0] == "";
    } else {
      DecimalReads(n / 10);
      assert d[..|d| - 1] == Decimal(n / 10);
      assert n / 10 < 10 ==> Decimal(n / 10) == [Digit(n / 10)];
    }
  }

  function LogPath(dir: string, stamp: string, index: nat): string {
    dir + "/" + stamp + "_" + Decimal(index) + ".log"
  }

  /** A log lies in the log directory, under its time stamp and its number in decimal digits. */
  lemma LogPathReads(dir: string, stamp: string, index: nat)
    ensures exists digits ::
      Read(digits) == index && digits != "" && LogPath(dir, stamp, index) == dir + "/" + stamp + "_" + digits + ".log"
  {
    DecimalReads(index);
    assert LogPath(dir, stamp, index) == dir + "/" + stamp + "_" + Decimal(index) + ".log";
  }

  lemma SameStem(s: string, u: string, t: string, v: string)
    requires '_' !in s && '_' !in t && u != "" && u[0] == '_' && v != "" && v[0] == '_' && s + u == t + v
    ensures s == t && u == v
  {
    assert s == (s + u)[..|s|] && t == (t + v)[..|t|] && u == (s + u)[|s|..] && v == (t + v)[|t|..];
  }

  lemma LogPathInjective(dir: string, s: string, i: nat, t: string, j: nat)
    requires '_' !in s && '_' !in t && LogPath(dir, s, i) == LogPath(dir, t, j)
    ensures s == t && i == j
  {
    var n := |dir| + 1;
    var p, q := LogPath(dir, s, i), LogPath(dir, t, j);
    var u, v := "_" + Decimal(i) + ".log", "_" + Decimal(j) + ".log";
    assert p == (dir + "/") + (s + u) && q == (dir + "/") + (t + v);
    assert s + u == p[n..] && t + v == q[n..];
    SameStem(s, u, t, v);
    assert Decimal(i) == u[1..|u| - 4] && Decimal(j) == v[1..|v| - 4];
    DecimalReads(i);
    DecimalReads(j);
  }

  /** The log entries of a run: `clock(k)` is what the clock shows when rsync call `k` starts, `code(k)` what
      it returns. */
  predicate LogsFollow(logs: seq<Log>, dir: string, save: bool, clock: nat -> string, code: nat -> int) {
    forall k :: 0 <= k < |logs| ==>
      logs[k].path == (if save then LogPath(dir, clock(k), k) else "") && logs[k].code == code(k)
  }

  lemma LogsFollowOne(logs: seq<Log>, log: Log, dir: string, save: bool, clock: nat -> string, code: nat -> int)
    requires LogsFollow(logs, dir, save, clock, code)
    requires log.path == (if save then LogPath(dir, clock(|logs|), |logs|) else "") && log.code == code(|logs|)
    ensures LogsFollow(logs + [log], dir, save, clock, code)
  {}

  lemma RoutesOne(logs: seq<Log>, log: Log)
    ensures Routes(logs + [log]) == Routes(logs) + [(log.source, log.destination)]
  {}

  /** Archived logs never overwrite each other, even within one second. */
  lemma PathsDistinct(logs: seq<Log>, dir: string, clock: nat -> string, code: nat -> int)
    requires LogsFollow(logs, dir, true, clock, code) && forall k :: '_' !in clock(k)
    ensures forall i, j :: 0 <= i < j < |logs| ==> logs[i].path != logs[j].path
  {
    forall i, j | 0 <= i < j < |logs|
      ensures logs[i].path != logs[j].path
    {
      if logs[i].path == logs[j].path {
        LogPathInjective(dir, clock(i), i, clock(j), j);
      }
    }
  }

  lemma EmptySsh(servers: map<string, Server>, staged: nat -> bool, dir: string)
    ensures SshPlan([], [], servers, staged, dir) == [] && SshMessages([], servers, staged) == []
  {}
}
