/** SSH targets in the job file: saving flattens them into (server, source, destination) entries,
    loading regroups the entries by server through a hash index. */
module SshTargets {
  import opened MultiHashes
  import opened Jobs

  type Dirs = MultiHash<string, string>
  type Target = TargetOf<string, Dirs>
  datatype Entry = Entry(server: string, source: string, dest: string)

  // ----- Saving -----

  function Entries(server: string, pairs: seq<(string, string)>): seq<Entry> {
    if pairs == [] then [] else [Entry(server, pairs[0].0, pairs[0].1)] + Entries(server, pairs[1..])
  }

  /** The entries of targets whose folder maps are iterated in the orders given by `ls`. */
  function Flatten(ts: seq<Target>, ls: seq<seq<(string, string)>>): seq<Entry>
    requires |ls| == |ts|
    decreases |ts|
  {
    if ts == [] then [] else Entries(ts[0].server, ls[0]) + Flatten(ts[1..], ls[1..])
  }

  /** One possible iteration order for the folder map of each target. */
  ghost predicate Orders(ls: seq<seq<(string, string)>>, ts: seq<Target>) {
    |ls| == |ts| && forall i :: 0 <= i < |ts| ==> Lists(ls[i], ts[i].dirs)
  }

  lemma {:induction false} EntriesAppend(server: string, a: seq<(string, string)>, b: seq<(string, string)>)
    ensures Entries(server, a + b) == Entries(server, a) + Entries(server, b)
  {
    if a == [] {
      assert a + b == b;
    } else {
      assert (a + b)[1..] == a[1..] + b;
      EntriesAppend(server, a[1..], b);
    }
  }

  lemma {:induction false} FlattenAppend(ts: seq<Target>, ls: seq<seq<(string, string)>>, t: Target,
        l: seq<(string, string)>)
    requires |ls| == |ts|
    ensures Flatten(ts + [t], ls + [l]) == Flatten(ts, ls) + Entries(t.server, l)
    decreases |ts|
  {
    if ts == [] {
      assert (ts + [t])[1..] == [] && (ls + [l])[1..] == [];
    } else {
      assert (ts + [t])[1..] == ts[1..] + [t] && (ls + [l])[1..] == ls[1..] + [l];
      FlattenAppend(ts[1..], ls[1..], t, l);
    }
  }

  /** The two nested loops of `saveBackupJob` that write the array `entries`. */
  method Save(ts: seq<Target>) returns (es: seq<Entry>, ghost ls: seq<seq<(string, string)>>)
    ensures Orders(ls, ts) && es == Flatten(ts, ls)
    ensures Servers(Regroup(es)) == LiveServers([], ts)
    ensures forall u, s :: EntryDestinations(es, u, s) == Destinations(ts, u, s)
  {
    hide Lists;
    es, ls := [], [];
    for i := 0 to |ts|
      invariant Orders(ls, ts[..i]) && es == Flatten(ts[..i], ls)
    {
      var pairs := Iterate(ts[i].dirs);
      ghost var before := es;
      for k := 0 to |pairs|
        invariant es == before + Entries(ts[i].server, pairs[..k])
      {
        assert pairs[..k + 1] == pairs[..k] + [pairs[k]];
        EntriesAppend(ts[i].server, pairs[..k], [pairs[k]]);
        es := es + [Entry(ts[i].server, pairs[k].0, pairs[k].1)];
      }
      assert pairs[..|pairs|] == pairs && ts[..i + 1] == ts[..i] + [ts[i]];
      FlattenAppend(ts[..i], ls, ts[i], pairs);
      ls := ls + [pairs];
    }
    assert ts[..|ts|] == ts;
    SaveLoad(ts, ls);
    forall u, s
      ensures EntryDestinations(es, u, s) == Destinations(ts, u, s)
    {
      FlattenDestinations(ts, ls, u, s);
    }
  }

  // ----- Loading -----

  /** The entry goes to the first target of its server, or to a new target at the end. */
  function AddEntry(ts: seq<Target>, e: Entry): seq<Target> {
    if ts == [] then [Target(e.server, Insert(map[], e.source, e.dest))]
    else if ts[0].server == e.server then [ts[0].(dirs := Insert(ts[0].dirs, e.source, e.dest))] + ts[1..]
    else [ts[0]] + AddEntry(ts[1..], e)
  }

  function AddEntries(ts: seq<Target>, es: seq<Entry>): seq<Target>
    decreases |es|
  {
    if es == [] then ts else AddEntries(AddEntry(ts, es[0]), es[1..])
  }

  function Regroup(es: seq<Entry>): seq<Target> {
    AddEntries([], es)
  }

  /** Linear search: the first target of a server, or the length of the list. */
  function Find(ts: seq<Target>, server: string): (i: nat)
    ensures i <= |ts|
    ensures i < |ts| ==> ts[i].server == server
    ensures forall k :: 0 <= k < i ==> ts[k].server != server
  {
    if ts == [] || ts[0].server == server then 0 else 1 + Find(ts[1..], server)
  }

  /** The hash index knows exactly the servers seen so far and points where a search would. */
  ghost predicate IndexAgrees(idx: map<string, nat>, ts: seq<Target>) {
    forall u :: if u in idx then idx[u] == Find(ts, u) < |ts| else Find(ts, u) == |ts|
  }

  lemma {:induction false} AddEntryAt(ts: seq<Target>, e: Entry)
    ensures
      var i := Find(ts, e.server);
      AddEntry(ts, e) ==
        if i < |ts| then ts[i := ts[i].(dirs := Insert(ts[i].dirs, e.source, e.dest))]
        else ts + [Target(e.server, Insert(map[], e.source, e.dest))]
  {
    if ts != [] && ts[0].server != e.server {
      AddEntryAt(ts[1..], e);
    }
  }

  lemma {:induction false} FindInsert(ts: seq<Target>, e: Entry, u: string)
    ensures Find(AddEntry(ts, e), u) ==
            if Find(ts, u) == |ts| && u != e.server then |AddEntry(ts, e)| else Find(ts, u)
  {
    if ts != [] && ts[0].server != e.server {
      FindInsert(ts[1..], e, u);
    }
  }

  /** The regrouping loop of `readBackupJobs` with its hash index. */
  method Load(es: seq<Entry>) returns (ts: seq<Target>)
    ensures ts == Regroup(es)
  {
    ts := [];
    var sshTargetIdx: map<string, nat> := map[];
    for i := 0 to |es|
      invariant IndexAgrees(sshTargetIdx, ts)
      invariant AddEntries(ts, es[i..]) == Regroup(es)
    {
      var e := es[i];
      ghost var before := ts;
      assert es[i..][0] == e && es[i..][1..] == es[i + 1..];
      AddEntryAt(ts, e);
      var idx;
      if e.server in sshTargetIdx {
        idx := sshTargetIdx[e.server];
      } else {
        var none: Dirs := map[];
        ts := ts + [Target(e.server, none)];
        idx := |ts| - 1;
        sshTargetIdx := sshTargetIdx[e.server := idx];
      }
      ts := ts[idx := ts[idx].(dirs := Insert(ts[idx].dirs, e.source, e.dest))];
      assert ts == AddEntry(before, e);
      forall u
        ensures if u in sshTargetIdx then sshTargetIdx[u] == Find(ts, u) < |ts| else Find(ts, u) == |ts|
      {
        FindInsert(before, e, u);
      }
    }
  }

  // ----- What loading restores -----

  function Servers(ts: seq<Target>): (r: seq<string>)
    ensures |r| == |ts|
    ensures forall i :: 0 <= i < |ts| ==> r[i] == ts[i].server
  {
    if ts == [] then [] else [ts[0].server] + Servers(ts[1..])
  }

  /** All destinations that the targets of `server` hold for one source folder. */
  function Destinations(ts: seq<Target>, server: string, source: string): seq<string> {
    if ts == [] then []
    else (if ts[0].server == server then Get(ts[0].dirs, source) else []) + Destinations(ts[1..], server, source)
  }

  function EntryDestinations(es: seq<Entry>, server: string, source: string): seq<string> {
    if es == [] then []
    else (if es[0].server == server && es[0].source == source then [es[0].dest] else [])
         + EntryDestinations(es[1..], server, source)
  }

  function Note(seen: seq<string>, server: string): seq<string> {
    if server in seen then seen else seen + [server]
  }

  /** The servers of the entries, in order of first appearance. */
  function EntryServers(seen: seq<string>, es: seq<Entry>): seq<string>
    decreases |es|
  {
    if es == [] then seen else EntryServers(Note(seen, es[0].server), es[1..])
  }

  /** The servers of the targets that hold a folder, in order of first appearance. */
  function LiveServers(seen: seq<string>, ts: seq<Target>): seq<string>
    decreases |ts|
  {
    if ts == [] then seen
    else LiveServers(if ts[0].dirs == map[] then seen else Note(seen, ts[0].server), ts[1..])
  }

  predicate Distinct(s: seq<string>) {
    forall i, j :: 0 <= i < j < |s| ==> s[i] != s[j]
  }

  predicate NoneEmpty(ts: seq<Target>) {
    forall i :: 0 <= i < |ts| ==> ts[i].dirs != map[]
  }

  predicate Canonical(ts: seq<Target>) {
    Distinct(Servers(ts)) && NoneEmpty(ts)
  }

  lemma {:induction false} AddEntryServers(ts: seq<Target>, e: Entry)
    ensures Servers(AddEntry(ts, e)) == Note(Servers(ts), e.server)
    ensures NoneEmpty(ts) ==> NoneEmpty(AddEntry(ts, e))
  {
    if ts != [] && ts[0].server != e.server {
      AddEntryServers(ts[1..], e);
      assert e.server in Servers(ts) <==> e.server in Servers(ts[1..]);
    }
  }

  lemma {:induction false} AddEntryDestinations(ts: seq<Target>, e: Entry, u: string, s: string)
    ensures Destinations(AddEntry(ts, e), u, s) ==
            (if e.server == u && e.source == s then [e.dest] else []) + Destinations(ts, u, s)
  {
    if ts != [] {
      if ts[0].server != e.server {
        AddEntryDestinations(ts[1..], e, u, s);
      } else {
        assert AddEntry(ts, e)[1..] == ts[1..];
      }
    }
  }

  lemma {:induction false} AddEntriesSpec(ts: seq<Target>, es: seq<Entry>)
    ensures Servers(AddEntries(ts, es)) == EntryServers(Servers(ts), es)
    ensures Distinct(Servers(ts)) ==> Distinct(Servers(AddEntries(ts, es)))
    ensures NoneEmpty(ts) ==> NoneEmpty(AddEntries(ts, es))
    decreases |es|
  {
    if es != [] {
      AddEntryServers(ts, es[0]);
      AddEntriesSpec(AddEntry(ts, es[0]), es[1..]);
    }
  }

  lemma {:induction false} AddEntriesDestinations(ts: seq<Target>, es: seq<Entry>, u: string, s: string)
    ensures Destinations(AddEntries(ts, es), u, s) == Reverse(EntryDestinations(es, u, s)) + Destinations(ts, u, s)
    decreases |es|
  {
    if es != [] {
      var e := es[0];
      AddEntriesDestinations(AddEntry(ts, e), es[1..], u, s);
      AddEntryDestinations(ts, e, u, s);
      var rest := EntryDestinations(es[1..], u, s);
      var own := if e.server == u && e.source == s then [e.dest] else [];
      ReverseStep(own, rest, Destinations(ts, u, s));
    } else {
      assert Reverse<string>([]) + Destinations(ts, u, s) == Destinations(ts, u, s);
    }
  }

  lemma ReverseStep(own: seq<string>, rest: seq<string>, d: seq<string>)
    requires |own| <= 1
    ensures Reverse(rest) + (own + d) == Reverse(own + rest) + d
  {
    ReverseAppend(own, rest);
    assert Reverse(own) == own;
  }

  lemma {:induction false} EntriesFacts(server: string, pairs: seq<(string, string)>, es: seq<Entry>, seen: seq<string>)
    ensures EntryServers(seen, Entries(server, pairs) + es) ==
            EntryServers(if pairs == [] then seen else Note(seen, server), es)
    decreases |pairs|
  {
    if pairs == [] {
      assert Entries(server, pairs) + es == es;
    } else {
      assert (Entries(server, pairs) + es)[1..] == Entries(server, pairs[1..]) + es;
      EntriesFacts(server, pairs[1..], es, Note(seen, server));
    }
  }

  lemma {:induction false} EntriesDestinations(server: string, pairs: seq<(string, string)>, es: seq<Entry>,
        u: string, s: string)
    ensures EntryDestinations(Entries(server, pairs) + es, u, s) ==
            (if server == u then Select(pairs, s) else []) + EntryDestinations(es, u, s)
    decreases |pairs|
  {
    if pairs == [] {
      assert Entries(server, pairs) + es == es;
    } else {
      assert (Entries(server, pairs) + es)[1..] == Entries(server, pairs[1..]) + es;
      EntriesDestinations(server, pairs[1..], es, u, s);
    }
  }

  lemma ListsEmpty(pairs: seq<(string, string)>, dirs: Dirs)
    requires Lists(pairs, dirs)
    ensures pairs == [] <==> dirs == map[]
  {
    if pairs != [] {
      assert Select(pairs, pairs[0].0) == Get(dirs, pairs[0].0);
    }
    if dirs != map[] {
      var k :| k in dirs;
      assert Select(pairs, k) == Get(dirs, k);
    }
  }

  lemma {:induction false} FlattenServers(ts: seq<Target>, ls: seq<seq<(string, string)>>, seen: seq<string>)
    requires Orders(ls, ts)
    ensures EntryServers(seen, Flatten(ts, ls)) == LiveServers(seen, ts)
    decreases |ts|
  {
    if ts != [] {
      ListsEmpty(ls[0], ts[0].dirs);
      EntriesFacts(ts[0].server, ls[0], Flatten(ts[1..], ls[1..]), seen);
      FlattenServers(ts[1..], ls[1..], if ts[0].dirs == map[] then seen else Note(seen, ts[0].server));
    }
  }

  lemma {:induction false} FlattenDestinations(ts: seq<Target>, ls: seq<seq<(string, string)>>, u: string, s: string)
    requires Orders(ls, ts)
    ensures EntryDestinations(Flatten(ts, ls), u, s) == Destinations(ts, u, s)
    decreases |ts|
  {
    if ts != [] {
      EntriesDestinations(ts[0].server, ls[0], Flatten(ts[1..], ls[1..]), u, s);
      FlattenDestinations(ts[1..], ls[1..], u, s);
      assert Select(ls[0], s) == Get(ts[0].dirs, s);
    }
  }

  /** Save then load, in whatever iteration order: the loaded list is canonical, its servers are those
      of the non-empty targets in order of first appearance, and each (server, source) keeps its
      destinations, newest and oldest exchanged. */
  lemma SaveLoad(ts: seq<Target>, ls: seq<seq<(string, string)>>)
    requires Orders(ls, ts)
    ensures
      var r := Regroup(Flatten(ts, ls));
      && Canonical(r)
      && Servers(r) == LiveServers([], ts)
      && forall u, s :: Destinations(r, u, s) == Reverse(Destinations(ts, u, s))
  {
    var es := Flatten(ts, ls);
    AddEntriesSpec([], es);
    FlattenServers(ts, ls, []);
    forall u, s
      ensures Destinations(Regroup(es), u, s) == Reverse(Destinations(ts, u, s))
    {
      AddEntriesDestinations([], es, u, s);
      FlattenDestinations(ts, ls, u, s);
    }
  }

  lemma {:induction false} EntryCount(es: seq<Entry>, e: Entry)
    ensures multiset(es)[e] == multiset(EntryDestinations(es, e.server, e.source))[e.dest]
  {
    if es != [] {
      EntryCount(es[1..], e);
      assert es == [es[0]] + es[1..];
    }
  }

  /** No (server, source, destination) triple is lost, invented or duplicated: written again, the loaded
      targets give the same multiset of entries. */
  lemma SaveLoadConserves(ts: seq<Target>, ls: seq<seq<(string, string)>>, ms: seq<seq<(string, string)>>)
    requires Orders(ls, ts) && Orders(ms, Regroup(Flatten(ts, ls)))
    ensures multiset(Flatten(Regroup(Flatten(ts, ls)), ms)) == multiset(Flatten(ts, ls))
  {
    var r := Regroup(Flatten(ts, ls));
    SaveLoad(ts, ls);
    forall e: Entry
      ensures multiset(Flatten(r, ms))[e] == multiset(Flatten(ts, ls))[e]
    {
      EntryCount(Flatten(r, ms), e);
      EntryCount(Flatten(ts, ls), e);
      FlattenDestinations(r, ms, e.server, e.source);
      FlattenDestinations(ts, ls, e.server, e.source);
      assert Destinations(r, e.server, e.source) == Reverse(Destinations(ts, e.server, e.source));
      ReverseMultiset(Destinations(ts, e.server, e.source));
    }
  }

  lemma {:induction false} DestinationsAt(ts: seq<Target>, i: nat, s: string)
    requires i < |ts| && Distinct(Servers(ts))
    ensures Destinations(ts, ts[i].server, s) == Get(ts[i].dirs, s)
    decreases i
  {
    if i == 0 {
      NoDestinations(ts[1..], ts[0].server, s);
    } else {
      assert Servers(ts[1..]) == Servers(ts)[1..];
      DestinationsAt(ts[1..], i - 1, s);
      assert Servers(ts)[0] != Servers(ts)[i];
    }
  }

  lemma {:induction false} NoDestinations(ts: seq<Target>, u: string, s: string)
    requires forall i :: 0 <= i < |ts| ==> ts[i].server != u
    ensures Destinations(ts, u, s) == []
  {
    if ts != [] {
      NoDestinations(ts[1..], u, s);
    }
  }

  /** A list without repeated servers is determined by its servers and their destinations. */
  lemma EqualByDestinations(a: seq<Target>, b: seq<Target>)
    requires Distinct(Servers(a)) && Servers(a) == Servers(b)
    requires forall u, s :: Destinations(a, u, s) == Destinations(b, u, s)
    ensures a == b
  {
    forall i | 0 <= i < |a|
      ensures a[i] == b[i]
    {
      assert Servers(a)[i] == Servers(b)[i];
      forall s
        ensures Get(a[i].dirs, s) == Get(b[i].dirs, s)
      {
        DestinationsAt(a, i, s);
        DestinationsAt(b, i, s);
        assert Destinations(a, a[i].server, s) == Destinations(b, a[i].server, s);
      }
      EqualByGet(a[i].dirs, b[i].dirs);
    }
  }

  /** What is loaded does not depend on the iteration orders met while saving. */
  lemma OrderDoesNotMatter(ts: seq<Target>, ls: seq<seq<(string, string)>>, ms: seq<seq<(string, string)>>)
    requires Orders(ls, ts) && Orders(ms, ts)
    ensures Regroup(Flatten(ts, ls)) == Regroup(Flatten(ts, ms))
  {
    SaveLoad(ts, ls);
    SaveLoad(ts, ms);
    EqualByDestinations(Regroup(Flatten(ts, ls)), Regroup(Flatten(ts, ms)));
  }

  lemma {:induction false} LiveAll(seen: seq<string>, ts: seq<Target>)
    requires NoneEmpty(ts) && Distinct(seen + Servers(ts))
    ensures LiveServers(seen, ts) == seen + Servers(ts)
    decreases |ts|
  {
    if ts == [] {
      assert seen + Servers(ts) == seen;
    } else {
      assert seen + Servers(ts) == seen + [ts[0].server] + Servers(ts[1..]);
      forall i | 0 <= i < |seen|
        ensures seen[i] != ts[0].server
      {
        assert (seen + Servers(ts))[i] == seen[i] && (seen + Servers(ts))[|seen|] == ts[0].server;
      }
      LiveAll(seen + [ts[0].server], ts[1..]);
    }
  }

  /** Loading gives the list back, up to the order within each key, exactly if it was canonical; the
      loaded list is canonical, so a second trip restores it. */
  lemma SaveLoadIdentity(ts: seq<Target>, ls: seq<seq<(string, string)>>)
    requires Orders(ls, ts)
    ensures Canonical(ts) <==> Regroup(Flatten(ts, ls)) == ReversedTargets(ts)
  {
    var r := Regroup(Flatten(ts, ls));
    var v := ReversedTargets(ts);
    SaveLoad(ts, ls);
    assert Servers(v) == Servers(ts);
    if Canonical(ts) {
      assert [] + Servers(ts) == Servers(ts);
      LiveAll([], ts);
      forall u, s
        ensures Destinations(r, u, s) == Destinations(v, u, s)
      {
        ReversedDestinations(ts, u, s);
      }
      EqualByDestinations(r, v);
    }
    if r == v {
      forall i | 0 <= i < |ts|
        ensures ts[i].dirs != map[]
      {
        assert v[i].dirs != map[];
      }
    }
  }

  lemma {:induction false} ReversedDestinations(ts: seq<Target>, u: string, s: string)
    requires Distinct(Servers(ts))
    ensures Destinations(ReversedTargets(ts), u, s) == Reverse(Destinations(ts, u, s))
  {
    if i :| 0 <= i < |ts| && ts[i].server == u {
      assert Servers(ReversedTargets(ts)) == Servers(ts);
      DestinationsAt(ts, i, s);
      DestinationsAt(ReversedTargets(ts), i, s);
    } else {
      NoDestinations(ts, u, s);
      NoDestinations(ReversedTargets(ts), u, s);
    }
  }

  /** Two trips equal one, up to the order within each key, and three equal one exactly. */
  lemma SaveLoadIdempotent(ts: seq<Target>, ls: seq<seq<(string, string)>>, ms: seq<seq<(string, string)>>)
    requires Orders(ls, ts) && Orders(ms, Regroup(Flatten(ts, ls)))
    ensures
      var once := Regroup(Flatten(ts, ls));
      var twice := Regroup(Flatten(once, ms));
      twice == ReversedTargets(once) && ReversedTargets(twice) == once
  {
    var once := Regroup(Flatten(ts, ls));
    SaveLoad(ts, ls);
    SaveLoadIdentity(once, ms);
    ReversedTargetsTwice(once);
  }
}
