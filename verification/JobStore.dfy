/** The directory of job files behind `tiConfBackupJobs`, as a refinement of a tree that holds the jobs
    last saved at its paths. INI encoding is abstracted: a key reads back as it was written. */
module JobStores {
  import opened MultiHashes
  import opened Jobs
  import opened Options
  import opened SshTargets
  import opened JobTrees
  import opened Splitting

  type Job = JobOf<string, Dirs>

  /** The contents of a job file: plain keys, the array `folders`, and the flat array `entries`. */
  datatype JobFile = JobFile(fields: JobOf<string, seq<(string, string)>>, entries: seq<Entry>)

  function MakeFile(j: Job, folders: seq<(string, string)>, entries: seq<Entry>): JobFile {
    JobFile(WithDirs(j, folders, []), entries)
  }

  function LoadFile(f: JobFile): Job {
    WithDirs(f.fields, FromPairs(f.fields.backupdirs), Regroup(f.entries))
  }

  /** What `QSettings` shows of a directory: no key at all, so that every value is the default of the reader. */
  const NO_FOLDERS: Dirs := map[]

  const NAMELESS: Job :=
    Job("", "", "", NO_FOLDERS, false, false, false, false, true, false, "", "", "",
        INTERVAL_NONE, "", 0, LUKS_NONE, "", false, "", "", [], "", false, [])

  const NO_FILE: JobFile := JobFile(WithDirs(NAMELESS, [], []), [])

  lemma NoFileLoads()
    ensures LoadFile(NO_FILE) == NAMELESS && LoadsAs(NAMELESS, NAMELESS)
    ensures NAMELESS.name == "" && NAMELESS.backupdirs == map[] && NAMELESS.sshTargets == []
    ensures NAMELESS.umountAfter && !NAMELESS.startOnHotplug && !NAMELESS.pbs && !NAMELESS.ssh
    ensures NAMELESS.intervalType == 0 && NAMELESS.luksType == 0
  {
    assert FromPairs<string, string>([]) == map[] == ReverseEach<string, string>(map[]);
  }

  /** `f` is what saving `j` may leave on disk. */
  ghost predicate IsFileOf(f: JobFile, j: Job) {
    exists folders, ls :: IsFileIn(f, j, folders, ls)
  }

  ghost predicate IsFileIn(f: JobFile, j: Job, folders: seq<(string, string)>, ls: seq<seq<(string, string)>>) {
    Lists(folders, j.backupdirs) && Orders(ls, j.sshTargets)
    && f == MakeFile(j, folders, Flatten(j.sshTargets, ls))
  }

  /** `r` is `j` after one trip through the store: every plain field as saved, the values of each
      folder key reversed, and the SSH targets in canonical form. */
  ghost predicate LoadsAs(j: Job, r: Job) {
    && r == WithDirs(j, ReverseEach(j.backupdirs), r.sshTargets)
    && Canonical(r.sshTargets)
    && Servers(r.sshTargets) == LiveServers([], j.sshTargets)
    && forall u, s :: Destinations(r.sshTargets, u, s) == Reverse(Destinations(j.sshTargets, u, s))
  }

  lemma MadeFileIsFileOf(j: Job, folders: seq<(string, string)>, ls: seq<seq<(string, string)>>)
    requires Lists(folders, j.backupdirs) && Orders(ls, j.sshTargets)
    ensures IsFileOf(MakeFile(j, folders, Flatten(j.sshTargets, ls)), j)
  {
    assert IsFileIn(MakeFile(j, folders, Flatten(j.sshTargets, ls)), j, folders, ls);
  }

  lemma LoadFileSpec(f: JobFile, j: Job)
    requires IsFileOf(f, j)
    ensures LoadsAs(j, LoadFile(f)) && LoadFile(f).name == j.name
  {
    var folders, ls :| IsFileIn(f, j, folders, ls);
    ReinsertReverses(folders, j.backupdirs);
    SaveLoad(j.sshTargets, ls);
  }

  /** The trip has one result, and it is the job itself up to the order of values exactly if its SSH
      targets have distinct servers and none is empty. */
  lemma LoadsAsUnique(j: Job, r: Job, q: Job)
    requires LoadsAs(j, r) && LoadsAs(j, q)
    ensures r == q
    ensures r == Reversed(j) <==> Canonical(j.sshTargets)
    ensures Canonical(j.sshTargets) ==> SameJob(j, r)
  {
    EqualByDestinations(r.sshTargets, q.sshTargets);
    CanonicalLoads(j, r);
    ReversedIsSame(j);
  }

  lemma CanonicalLoads(j: Job, r: Job)
    requires LoadsAs(j, r)
    ensures r == Reversed(j) <==> Canonical(j.sshTargets)
  {
    var ts := j.sshTargets;
    assert Servers(ReversedTargets(ts)) == Servers(ts);
    if Canonical(ts) {
      assert [] + Servers(ts) == Servers(ts);
      LiveAll([], ts);
      forall u, s
        ensures Destinations(r.sshTargets, u, s) == Destinations(ReversedTargets(ts), u, s)
      {
        ReversedDestinations(ts, u, s);
      }
      EqualByDestinations(r.sshTargets, ReversedTargets(ts));
    } else if r.sshTargets == ReversedTargets(ts) {
      forall i | 0 <= i < |ts|
        ensures ts[i].dirs != map[]
      {
        assert r.sshTargets[i].dirs != map[];
      }
      assert false;
    }
  }

  // ----- Looking a name up -----

  /** The job that the store yields for a name: the one last saved at its path, if that was saved under this very
      name and the directory shows it. A directory that is named like a job file is a job without a name. */
  ghost function Lookup(base: Path, t: Tree<Job>, name: string): Option<Job> {
    if name == "" then if ListedDir(base, t.dirs) then Some(NAMELESS) else None
    else
      var p := PathOf(base, name);
      if p in t.files && t.files[p].name == name && Listed(base, p) then Some(t.files[p]) else None
  }

  /** Every file holds a job whose name leads to it. */
  ghost predicate Named(base: Path, t: Tree<Job>) {
    forall p :: p in t.files ==> PathOf(base, t.files[p].name) == p
  }

  lemma EmptyNameIsHidden(base: Path)
    ensures !Listed(base, PathOf(base, ""))
  {
    PlainPath(base, {}, "");
  }

  /** A save or a removal under the name `n` leaves another name alone if their files differ. */
  lemma OtherFile(base: Path, t: Tree<Job>, j: Job, d: Disk, m: string)
    requires Sound(base, t) && m != "" && PathOf(base, m) != PathOf(base, j.name)
    ensures Lookup(base, AfterSave(base, t, j.name, j, d), m) == Lookup(base, t, m)
    ensures Lookup(base, AfterRemove(base, t, j.name, d), m) == Lookup(base, t, m)
  {
    SaveOutcome(base, t, j.name, j, d);
  }

  /** The store keeps the promise "a job saved under one name leaves the others alone" for a pair of names exactly
      if their files differ; names without slashes keep it. */
  lemma NamesAreIndependent(base: Path, m: string, n: string)
    requires m != n && Listed(base, PathOf(base, m))
    ensures
      (forall t: Tree<Job>, j: Job, d: Disk :: Sound(base, t) && Named(base, t) && j.name == n ==>
        Lookup(base, AfterSave(base, t, n, j, d), m) == Lookup(base, t, m))
      <==> PathOf(base, m) != PathOf(base, n)
    ensures Plain(m) && Plain(n) ==> PathOf(base, m) != PathOf(base, n)
  {
    hide Listed, Lookup, Sound, AfterSave, PathOf;
    EmptyNameIsHidden(base);
    if Plain(m) && Plain(n) {
      PlainPathsApart(base, m, n);
    }
    if PathOf(base, m) == PathOf(base, n) {
      SharedFile(base, m, n);
    } else {
      forall t: Tree<Job>, j: Job, d: Disk | Sound(base, t) && Named(base, t) && j.name == n
        ensures Lookup(base, AfterSave(base, t, n, j, d), m) == Lookup(base, t, m)
      {
        OtherFile(base, t, j, d, m);
      }
    }
  }

  lemma SharedFile(base: Path, m: string, n: string)
    requires m != n && m != "" && PathOf(base, m) == PathOf(base, n) && Listed(base, PathOf(base, m))
    ensures exists t: Tree<Job>, j: Job, d: Disk ::
      && Sound(base, t) && Named(base, t) && j.name == n
      && Lookup(base, AfterSave(base, t, n, j, d), m) != Lookup(base, t, m)
  {
    var p := PathOf(base, m);
    var t := Tree(map[p := NAMELESS.(name := m)], Prefixes(p, |p|));
    var d := Disk(true, |p|, true);
    assert p[..|base|] == base;
    forall q | q in t.dirs && q != []
      ensures Parent(q) in t.dirs
    {
      assert Parent(q) == p[..|q| - 1];
    }
    assert Parent(p) == base;
    SaveOutcome(base, t, n, NAMELESS.(name := n), d);
    assert Lookup(base, t, m) == Some(NAMELESS.(name := m));
    assert Lookup(base, AfterSave(base, t, n, NAMELESS.(name := n), d), m) == None;
  }

  // ----- Reading the directory -----

  /** What reading the entry `p` may yield. */
  ghost predicate ReadsAs(t: Tree<Job>, p: Path, j: Job) {
    if p in t.files then LoadsAs(t.files[p], j) else j == NAMELESS
  }

  ghost predicate Entry(base: Path, t: Tree<Job>, p: Path) {
    Listed(base, p) && (p in t.files || p in t.dirs)
  }

  /** `js` is a reading of the directory, but for the entries in `left`: one job for each entry that is taken for a
      job file, in the order in which the entries were met. */
  ghost predicate Reading(base: Path, t: Tree<Job>, left: set<Path>, order: seq<Path>, js: seq<Job>) {
    && |order| == |js|
    && (forall i, k :: 0 <= i < k < |order| ==> order[i] != order[k])
    && (forall p :: p in order <==> Entry(base, t, p) && p !in left)
    && (forall i :: 0 <= i < |js| ==> ReadsAs(t, order[i], js[i]))
  }

  lemma ReadNext(base: Path, t: Tree<Job>, left: set<Path>, order: seq<Path>, js: seq<Job>, p: Path, j: Job)
    requires Reading(base, t, left, order, js) && p in left && Entry(base, t, p) && ReadsAs(t, p, j)
    ensures Reading(base, t, left - {p}, order + [p], js + [j])
  {
    hide Entry, ReadsAs;
  }

  lemma SkipNext(base: Path, t: Tree<Job>, left: set<Path>, order: seq<Path>, js: seq<Job>, p: Path)
    requires Reading(base, t, left, order, js) && p in left && !Entry(base, t, p)
    ensures Reading(base, t, left - {p}, order, js)
  {
    hide Entry, ReadsAs;
  }

  /** `r` is what the store yields where `e` is expected: the same job, in its loaded form. */
  ghost predicate Yields(e: Option<Job>, r: Option<Job>) {
    (r.Some? <==> e.Some?) && (r.Some? ==> LoadsAs(e.value, r.value))
  }

  /** Every job of a reading is the one that its name denotes. */
  lemma ReadAt(base: Path, t: Tree<Job>, order: seq<Path>, js: seq<Job>, i: nat)
    requires Sound(base, t) && Named(base, t) && Reading(base, t, {}, order, js) && i < |js|
    ensures Yields(Lookup(base, t, js[i].name), Some(js[i]))
  {
    hide Sound, LoadsAs, Listed, PathOf;
    var p := order[i];
    assert p in order && ReadsAs(t, p, js[i]);
    EmptyNameIsHidden(base);
    if p in t.files {
      LoadedName(t.files[p], js[i]);
    } else {
      NoFileLoads();
    }
  }

  lemma LoadedName(j: Job, r: Job)
    requires LoadsAs(j, r)
    ensures r.name == j.name
  {}

  /** A name that no job of a reading carries denotes nothing. */
  lemma NotRead(base: Path, t: Tree<Job>, order: seq<Path>, js: seq<Job>, n: string)
    requires Sound(base, t) && Reading(base, t, {}, order, js) && forall i :: 0 <= i < |js| ==> js[i].name != n
    ensures Lookup(base, t, n) == None
  {
    hide LoadsAs, Listed, PathOf;
    if Lookup(base, t, n).Some? {
      var p := if n == "" then (var q :| q in t.dirs && Listed(base, q); q) else PathOf(base, n);
      assert Entry(base, t, p);
      var i :| 0 <= i < |order| && order[i] == p;
      assert ReadsAs(t, p, js[i]);
      if p in t.files {
        LoadedName(t.files[p], js[i]);
      }
      assert false;
    }
  }

  /** Two jobs of a reading have the same name only if neither has any. */
  lemma NamesApart(base: Path, t: Tree<Job>, order: seq<Path>, js: seq<Job>, i: nat, k: nat)
    requires Sound(base, t) && Named(base, t) && Reading(base, t, {}, order, js) && i < k < |js|
    ensures js[i].name == js[k].name ==> js[i] == js[k] == NAMELESS
  {
    hide LoadsAs, Listed, PathOf;
    EmptyNameIsHidden(base);
    forall x | x == i || x == k
      ensures Entry(base, t, order[x]) && ReadsAs(t, order[x], js[x])
      ensures order[x] in t.files ==> PathOf(base, js[x].name) == order[x] && js[x].name != ""
    {
      assert order[x] in order;
      if order[x] in t.files {
        LoadedName(t.files[order[x]], js[x]);
      }
    }
  }

  /** The disk refines the tree: same files and directories, and every file holds the job whose name leads to
      it. */
  ghost predicate Refines(base: Path, disk: Tree<JobFile>, t: Tree<Job>) {
    && Sound(base, t) && Named(base, t)
    && disk.dirs == t.dirs && AllFilesOf(disk.files, t.files)
  }

  ghost predicate AllFilesOf(files: map<Path, JobFile>, jobs: map<Path, Job>) {
    files.Keys == jobs.Keys && forall p :: p in jobs ==> IsFileOf(files[p], jobs[p])
  }

  lemma RemovingRefines(base: Path, disk: Tree<JobFile>, t: Tree<Job>, name: string, d: Disk)
    requires Refines(base, disk, t)
    ensures Refines(base, AfterRemove(base, disk, name, d), AfterRemove(base, t, name, d))
  {
    hide IsFileOf, PathOf, Reached, Sound;
    RemoveBlocks(base, t, name, d);
  }

  lemma BlockedAlike<F, G>(t: Tree<F>, u: Tree<G>, p: Path)
    requires t.dirs == u.dirs && t.files.Keys == u.files.Keys
    ensures Blocked(t, p) <==> Blocked(u, p)
  {
    assert forall q :: q in t.files <==> q in u.files;
  }

  lemma WritingRefines(base: Path, disk: Tree<JobFile>, t: Tree<Job>, f: JobFile, j: Job, d: Disk)
    requires Refines(base, disk, t) && IsFileOf(f, j) && PathOf(base, j.name) != []
    ensures
      var p := PathOf(base, j.name);
      Refines(base, AfterWrite(disk, p, f, d), AfterWrite(t, p, j, d))
  {
    hide IsFileOf, PathOf, Sound, Prefixes, Blocked, AllFilesOf, Named;
    var p := PathOf(base, j.name);
    var dirs := t.dirs + Prefixes(p, d.depth);
    WriteSound(base, t, p, j, d);
    OneMoreFile(base, disk.files, t, f, j, dirs);
    BlockedAlike(disk, t, p);
    NamedOfFiles(base, t, Tree(t.files, dirs));
  }

  lemma NamedOfFiles(base: Path, t: Tree<Job>, u: Tree<Job>)
    requires Named(base, t) && t.files == u.files
    ensures Named(base, u)
  {}

  lemma OneMoreFile(base: Path, files: map<Path, JobFile>, t: Tree<Job>, f: JobFile, j: Job, dirs: set<Path>)
    requires Named(base, t) && AllFilesOf(files, t.files) && IsFileOf(f, j)
    ensures
      var p := PathOf(base, j.name);
      && files.Keys == t.files.Keys
      && Named(base, Tree(t.files[p := j], dirs)) && AllFilesOf(files[p := f], t.files[p := j])
  {
    hide IsFileOf, PathOf;
  }

  class JobStore {
    const base: Path             // the jobs directory
    var disk: Tree<JobFile>
    var jobs: seq<Job>
    ghost var saved: Tree<Job>   // the same tree, with the job last saved at each path

    ghost predicate Valid()
      reads this
    {
      Refines(base, disk, saved)
    }

    /** The store opens a directory that may hold jobs already. */
    constructor (base: Path, disk: Tree<JobFile>, ghost saved: Tree<Job>)
      requires Refines(base, disk, saved)
      ensures Valid() && this.base == base && this.disk == disk && this.saved == saved
    {
      this.base, this.disk, this.saved, jobs := base, disk, saved, [];
    }

    /** `QFile::remove`. */
    method Remove(name: string, d: Disk) returns (ok: bool)
      requires Valid()
      modifies this`disk, this`saved
      ensures Valid() && saved == AfterRemove(base, old(saved), name, d)
      ensures ok <==> Removed(base, old(saved), name, d)
    {
      hide PathOf, Reached, Refines;
      RemovedAlike(base, disk, saved, name, d);
      RemovingRefines(base, disk, saved, name, d);
      ok := Removed(base, disk, name, d);
      disk := AfterRemove(base, disk, name, d);
      saved := AfterRemove(base, saved, name, d);
    }

    /** Whatever came before, the file ends up written, blocked or refused; `AfterSave` says which. */
    method SaveBackupJob(job: Job, d: Disk)
      requires Valid()
      modifies this`disk, this`saved
      ensures Valid() && saved == AfterSave(base, old(saved), job.name, job, d)
    {
      hide IsFileOf, Refines, PathOf, Reached, AfterRemove, AfterWrite;
      var p := PathOf(base, job.name);
      PathOfFile(base, job.name);
      RemovedAlike(base, disk, saved, job.name, d);
      if Reached(base, disk.dirs, job.name) && (p in disk.files || p in disk.dirs) {
        var _ := Remove(job.name, d);
      } else {
        RemoveMissing(base, saved, job.name, d);
      }
      var folders := Iterate(job.backupdirs);
      var entries, ls := Save(job.sshTargets);
      var f := MakeFile(job, folders, entries);
      MadeFileIsFileOf(job, folders, ls);
      WritingRefines(base, disk, saved, f, job, d);
      disk := AfterWrite(disk, p, f, d);
      saved := AfterWrite(saved, p, job, d);
    }

    method RemoveJobByName(name: string, d: Disk) returns (ok: bool)
      requires Valid()
      modifies this`disk, this`saved
      ensures Valid() && saved == AfterRemove(base, old(saved), name, d)
      ensures ok <==> Removed(base, old(saved), name, d)
    {
      ok := Remove(name, d);
    }

    method ReadBackupJobs() returns (ghost order: seq<Path>)
      requires Valid()
      modifies this`jobs
      ensures Valid() && Reading(base, saved, {}, order, jobs)
    {
      hide LoadsAs, IsFileOf, LoadFile, Reading, Conf, Refines;
      jobs, order := [], [];
      var left := set p | p in disk.files.Keys + disk.dirs && Shown(base, p);
      NothingRead(base, disk, saved, left);
      while left != {}
        invariant forall p :: p in left ==> (p in disk.files || p in disk.dirs) && Shown(base, p)
        invariant Reading(base, saved, left, order, jobs)
        decreases |left|
      {
        var p :| p in left;
        if Conf(p[|base|]) {
          var job := ReadJobFile(if p in disk.files then disk.files[p] else NO_FILE);
          EntryLoads(base, disk, saved, p);
          ReadNext(base, saved, left, order, jobs, p, job);
          jobs, order := jobs + [job], order + [p];
        } else {
          SkipNext(base, saved, left, order, jobs, p);
        }
        left := left - {p};
      }
      assert left == {};
    }

    method ReadJobFile(f: JobFile) returns (job: Job)
      ensures job == LoadFile(f)
    {
      var folders := f.fields.backupdirs;
      var dirs: Dirs := map[];
      for i := 0 to |folders|
        invariant InsertAll(dirs, folders[i..]) == FromPairs(folders)
      {
        assert folders[i..][0] == folders[i] && folders[i..][1..] == folders[i + 1..];
        dirs := Insert(dirs, folders[i].0, folders[i].1);
      }
      var targets := Load(f.entries);
      job := WithDirs(f.fields, dirs, targets);
    }

    method GetJobs() returns (js: seq<Job>, ghost order: seq<Path>)
      requires Valid()
      modifies this`jobs
      ensures Valid() && Reading(base, saved, {}, order, js) && js == jobs
    {
      order := ReadBackupJobs();
      js := jobs;
    }

    /** The first match is the job that the name denotes, in its loaded form. */
    method GetJobByName(name: string) returns (r: Option<Job>)
      requires Valid()
      modifies this`jobs
      ensures Valid() && Yields(Lookup(base, saved, name), r)
    {
      hide LoadsAs, IsFileOf, Reading, Listed, PathOf, Lookup, Sound;
      ghost var order := ReadBackupJobs();
      for i := 0 to |jobs|
        invariant forall k :: 0 <= k < i ==> jobs[k].name != name
      {
        if jobs[i].name == name {
          ReadAt(base, saved, order, jobs, i);
          return Some(jobs[i]);
        }
      }
      NotRead(base, saved, order, jobs, name);
      r := None;
    }

    /** Exactly the jobs of a partition, in the order of the reading. */
    method GetJobsByUuid(uuid: string) returns (js: seq<Job>, ghost order: seq<Path>)
      requires Valid()
      modifies this`jobs
      ensures Valid() && Reading(base, saved, {}, order, jobs) && js == OfPartition(jobs, uuid)
    {
      hide LoadsAs, IsFileOf, Reading, Refines;
      order := ReadBackupJobs();
      js := [];
      for i := 0 to |jobs|
        invariant js + OfPartition(jobs[i..], uuid) == OfPartition(jobs, uuid)
      {
        assert jobs[i..][0] == jobs[i] && jobs[i..][1..] == jobs[i + 1..];
        if jobs[i].partitionUuid == uuid {
          js := js + [jobs[i]];
        }
      }
    }

    /** Any sequence of saves and removals leaves the tree that the abstract replay gives. */
    method Run(ops: seq<Op>)
      requires Valid()
      modifies this`disk, this`saved
      ensures Valid() && saved == Replay(base, old(saved), ops)
    {
      hide PathOf, Refines, AfterSave, AfterRemove, Removed;
      for i := 0 to |ops|
        invariant Valid() && saved == Replay(base, old(saved), ops[..i])
      {
        assert ops[..i + 1][..i] == ops[..i];
        match ops[i] {
          case SaveOp(job, d) => SaveBackupJob(job, d);
          case RemoveOp(name, d) => var _ := RemoveJobByName(name, d);
        }
      }
      assert ops[..|ops|] == ops;
    }

    // ----- What a caller sees -----

    /** A save that takes effect is found under its name exactly if its file is listed. Without effect the name
        yields what it did before, or nothing if the old file was removed. */
    method SaveThenFind(job: Job, d: Disk) returns (r: Option<Job>)
      requires Valid()
      modifies this
      ensures Valid()
      ensures
        var t, p := old(saved), PathOf(base, job.name);
        job.name != "" ==>
          if Written(base, t, job.name, d) then Yields(if Listed(base, p) then Some(job) else None, r)
          else if Removed(base, t, job.name, d) then r == None
          else Yields(Lookup(base, t, job.name), r)
    {
      hide Refines, AfterSave, Written, Removed, Listed, PathOf, LoadsAs;
      SavedSound(base, disk, saved);
      SaveOutcome(base, saved, job.name, job, d);
      SaveBackupJob(job, d);
      r := GetJobByName(job.name);
    }

    /** A save takes another name's job away exactly if the two names share a file and the save takes effect or
        removes the old file. */
    method SaveThenFindOther(job: Job, d: Disk, m: string) returns (r: Option<Job>)
      requires Valid() && m != job.name && m != ""
      modifies this
      ensures Valid()
      ensures
        var t := old(saved);
        if PathOf(base, m) == PathOf(base, job.name)
           && (Written(base, t, job.name, d) || Removed(base, t, job.name, d))
        then r == None
        else Yields(Lookup(base, t, m), r)
    {
      hide Refines, AfterSave, Written, Removed, Listed, PathOf, LoadsAs;
      SavedSound(base, disk, saved);
      SaveOutcome(base, saved, job.name, job, d);
      SaveBackupJob(job, d);
      r := GetJobByName(m);
    }

    /** The same for removing a name, its own job included. */
    method RemoveThenFind(n: string, d: Disk, m: string) returns (ok: bool, r: Option<Job>)
      requires Valid()
      modifies this
      ensures Valid()
      ensures ok <==> Removed(base, old(saved), n, d)
      ensures
        if ok && PathOf(base, m) == PathOf(base, n) && m != "" then r == None
        else Yields(Lookup(base, old(saved), m), r)
    {
      hide Refines, Listed, PathOf, LoadsAs, Reached;
      ok := RemoveJobByName(n, d);
      r := GetJobByName(m);
    }

    /** A nameless job appears exactly if a directory is, or by this save becomes, named like a job file. */
    method SaveThenFindNameless(job: Job, d: Disk) returns (r: Option<Job>)
      requires Valid()
      modifies this
      ensures Valid()
      ensures
        var t, p := old(saved), PathOf(base, job.name);
        && (r.Some? ==> r.value == NAMELESS)
        && (r.Some? <==> ListedDir(base, t.dirs)
                         || (!Blocked(t, p) && |base| + 1 < |p| && |base| + 1 <= d.depth
                             && Listed(base, p[..|base| + 1])))
    {
      hide Refines, AfterSave, PathOf, LoadsAs;
      SavedSound(base, disk, saved);
      DirsAfterSave(base, saved, job, d);
      SaveBackupJob(job, d);
      r := GetJobByName("");
      NoFileLoads();
      if r.Some? {
        LoadsOnce(NAMELESS, r.value);
      }
    }
  }

  lemma LoadsOnce(j: Job, r: Job)
    requires LoadsAs(j, j) && LoadsAs(j, r)
    ensures r == j
  {
    LoadsAsUnique(j, j, r);
  }

  lemma SavedSound(base: Path, disk: Tree<JobFile>, t: Tree<Job>)
    requires Refines(base, disk, t)
    ensures Sound(base, t) && Named(base, t)
  {}

  lemma DirsAfterSave(base: Path, t: Tree<Job>, j: Job, d: Disk)
    requires Sound(base, t)
    ensures
      var p := PathOf(base, j.name);
      ListedDir(base, AfterSave(base, t, j.name, j, d).dirs) <==>
        ListedDir(base, t.dirs)
        || (!Blocked(t, p) && |base| + 1 < |p| && |base| + 1 <= d.depth && Listed(base, p[..|base| + 1]))
  {
    var p, n := PathOf(base, j.name), |base| + 1;
    RemoveBlocks(base, t, j.name, d);
    var r := AfterSave(base, t, j.name, j, d);
    if !Blocked(t, p) {
      assert r.dirs == t.dirs + Prefixes(p, d.depth);
      if n < |p| && n <= d.depth && Listed(base, p[..n]) {
        assert p[..n] in Prefixes(p, d.depth);
      }
      if q :| q in r.dirs && Listed(base, q) && q !in t.dirs {
        assert q == p[..|q|];
      }
    }
  }

  lemma RemovedAlike(base: Path, disk: Tree<JobFile>, t: Tree<Job>, name: string, d: Disk)
    requires Refines(base, disk, t)
    ensures Removed(base, disk, name, d) <==> Removed(base, t, name, d)
    ensures disk.dirs == t.dirs && disk.files.Keys == t.files.Keys
  {
    hide PathOf, Reached;
  }

  /** Nothing is removed where there is no file or it is not reached. */
  lemma RemoveMissing<F>(base: Path, t: Tree<F>, name: string, d: Disk)
    requires !Reached(base, t.dirs, name) || PathOf(base, name) !in t.files
    ensures AfterRemove(base, t, name, d) == t
  {}

  lemma NothingRead(base: Path, disk: Tree<JobFile>, t: Tree<Job>, left: set<Path>)
    requires Refines(base, disk, t) && left == set p | p in disk.files.Keys + disk.dirs && Shown(base, p)
    ensures Reading(base, t, left, [], [])
  {}

  lemma EntryLoads(base: Path, disk: Tree<JobFile>, t: Tree<Job>, p: Path)
    requires Refines(base, disk, t)
    ensures p in disk.files || p in disk.dirs <==> p in t.files || p in t.dirs
    ensures ReadsAs(t, p, LoadFile(if p in disk.files then disk.files[p] else NO_FILE))
  {
    hide LoadsAs, IsFileOf, LoadFile;
    NoFileLoads();
    if p in t.files {
      LoadFileSpec(disk.files[p], t.files[p]);
    }
  }

  function OfPartition(js: seq<Job>, uuid: string): seq<Job> {
    if js == [] then []
    else (if js[0].partitionUuid == uuid then [js[0]] else []) + OfPartition(js[1..], uuid)
  }

  lemma {:induction false} OfPartitionSpec(js: seq<Job>, uuid: string, j: Job)
    ensures multiset(OfPartition(js, uuid))[j] == if j.partitionUuid == uuid then multiset(js)[j] else 0
  {
    if js != [] {
      OfPartitionSpec(js[1..], uuid, j);
      assert js == [js[0]] + js[1..];
    }
  }

  // ----- Sequences of operations -----

  /** Each with what the file system grants it. */
  datatype Op = SaveOp(job: Job, disk: Disk) | RemoveOp(name: string, disk: Disk) {
    function Name(): string {
      if SaveOp? then job.name else name
    }
  }

  function Apply(base: Path, t: Tree<Job>, op: Op): Tree<Job> {
    match op
    case SaveOp(job, d) => AfterSave(base, t, job.name, job, d)
    case RemoveOp(name, d) => AfterRemove(base, t, name, d)
  }

  function Replay(base: Path, t: Tree<Job>, ops: seq<Op>): Tree<Job> {
    if ops == [] then t else Apply(base, Replay(base, t, ops[..|ops| - 1]), ops[|ops| - 1])
  }

  /** What one operation makes of the file at a path. */
  ghost function FileAfter(base: Path, t: Tree<Job>, op: Op, p: Path): Option<Job> {
    if p == PathOf(base, op.Name()) && op.SaveOp? && Written(base, t, op.Name(), op.disk) then Some(op.job)
    else if p == PathOf(base, op.Name()) && Removed(base, t, op.Name(), op.disk) then None
    else FileAt(t, p)
  }

  function FileAt(t: Tree<Job>, p: Path): Option<Job> {
    if p in t.files then Some(t.files[p]) else None
  }

  lemma ApplyAt(base: Path, t: Tree<Job>, op: Op, p: Path)
    requires Sound(base, t)
    ensures Sound(base, Apply(base, t, op)) && FileAt(Apply(base, t, op), p) == FileAfter(base, t, op, p)
  {
    hide Sound, PathOf, Reached, Written, AfterSave;
    match op {
      case SaveOp(job, d) => SaveOutcome(base, t, job.name, job, d);
      case RemoveOp(name, d) => RemoveBlocks(base, t, name, d);
    }
  }

  lemma {:induction false} ReplaySound(base: Path, t: Tree<Job>, ops: seq<Op>)
    requires Sound(base, t)
    ensures Sound(base, Replay(base, t, ops))
  {
    hide Sound, Apply;
    if ops != [] {
      var n := |ops| - 1;
      ReplaySound(base, t, ops[..n]);
      ApplyAt(base, Replay(base, t, ops[..n]), ops[n], []);
    }
  }

  /** The last operation on a file decides what the file holds, whatever happens elsewhere afterwards. */
  lemma {:induction false} LastOpWins(base: Path, t: Tree<Job>, ops: seq<Op>, k: nat)
    requires k < |ops| && Sound(base, t)
    requires forall i :: k < i < |ops| ==> PathOf(base, ops[i].Name()) != PathOf(base, ops[k].Name())
    ensures
      var p := PathOf(base, ops[k].Name());
      FileAt(Replay(base, t, ops), p) == FileAfter(base, Replay(base, t, ops[..k]), ops[k], p)
    decreases |ops|
  {
    hide Sound, PathOf, Reached, Written, Removed, Apply;
    var last, p := |ops| - 1, PathOf(base, ops[k].Name());
    ReplaySound(base, t, ops[..last]);
    ApplyAt(base, Replay(base, t, ops[..last]), ops[last], p);
    if k < last {
      LastOpWins(base, t, ops[..last], k);
      assert ops[..last][..k] == ops[..k];
      assert PathOf(base, ops[last].Name()) != p;
    }
  }

  lemma {:induction false} UntouchedStays(base: Path, t: Tree<Job>, ops: seq<Op>, n: string)
    requires n != "" && Sound(base, t)
    requires forall i :: 0 <= i < |ops| ==> PathOf(base, ops[i].Name()) != PathOf(base, n)
    ensures Lookup(base, Replay(base, t, ops), n) == Lookup(base, t, n)
  {
    hide Sound, PathOf, Reached, Written, Removed, Apply, Listed;
    if ops != [] {
      var last := |ops| - 1;
      UntouchedStays(base, t, ops[..last], n);
      ReplaySound(base, t, ops[..last]);
      ApplyAt(base, Replay(base, t, ops[..last]), ops[last], PathOf(base, n));
      assert PathOf(base, ops[last].Name()) != PathOf(base, n);
    }
  }

  // ----- Tame names -----

  predicate Generous(base: Path, op: Op) {
    op.disk.removes && op.disk.writes && |PathOf(base, op.Name())| <= op.disk.depth
  }

  /** Saves and removals on a plain map of paths. */
  function MapApply(base: Path, m: map<Path, Job>, op: Op): map<Path, Job> {
    if op.SaveOp? then m[PathOf(base, op.Name()) := op.job] else m - {PathOf(base, op.Name())}
  }

  function MapReplay(base: Path, m: map<Path, Job>, ops: seq<Op>): map<Path, Job> {
    if ops == [] then m else MapApply(base, MapReplay(base, m, ops[..|ops| - 1]), ops[|ops| - 1])
  }

  ghost predicate TameTree(base: Path, t: Tree<Job>) {
    Sound(base, t) && Named(base, t) && TameDirs(base, t.dirs)
  }

  lemma NamedIsConf(base: Path, t: Tree<Job>)
    requires Named(base, t)
    ensures forall p :: p in t.files ==> p != [] && Conf(p[|p| - 1])
  {
    forall p | p in t.files
      ensures p != [] && Conf(p[|p| - 1])
    {
      PathOfFile(base, t.files[p].name);
    }
  }

  lemma TameApply(base: Path, t: Tree<Job>, op: Op)
    requires TameTree(base, t) && Tame(op.Name()) && Generous(base, op)
    ensures TameTree(base, Apply(base, t, op)) && Apply(base, t, op).files == MapApply(base, t.files, op)
  {
    hide PathOf, Sound, TameDirs, Tame, Reached, TamePath, Blocked, AfterSave;
    var p, r := PathOf(base, op.Name()), Apply(base, t, op);
    TameName(base, t, op.Name());
    TameIsWritten(base, t, op);
    match op {
      case SaveOp(job, d) =>
        SaveOutcome(base, t, job.name, job, d);
        TameDirsStay(base, t.dirs, r.dirs, p);
      case RemoveOp(name, d) =>
        RemoveBlocks(base, t, name, d);
    }
  }

  /** A tame name is never blocked, so its save takes effect if the file system grants it. */
  lemma TameIsWritten(base: Path, t: Tree<Job>, op: Op)
    requires TameTree(base, t) && Tame(op.Name()) && Generous(base, op)
    ensures Written(base, t, op.Name(), op.disk)
  {
    hide PathOf, Sound, TameDirs, Tame;
    NamedIsConf(base, t);
    TameIsFree(base, t, op.Name());
  }

  /** For tame names, on a file system that grants everything, the store is a plain map of paths, and no nameless
      job appears. */
  lemma {:induction false} TameRuns(base: Path, t: Tree<Job>, ops: seq<Op>)
    requires TameTree(base, t) && forall i :: 0 <= i < |ops| ==> Tame(ops[i].Name()) && Generous(base, ops[i])
    ensures TameTree(base, Replay(base, t, ops))
    ensures Replay(base, t, ops).files == MapReplay(base, t.files, ops)
    ensures Lookup(base, Replay(base, t, ops), "") == None
  {
    hide Apply, MapApply, Sound, Named, Tame, Generous;
    if ops != [] {
      var n := |ops| - 1;
      TameRuns(base, t, ops[..n]);
      TameApply(base, Replay(base, t, ops[..n]), ops[n]);
    }
  }

  /** Without tameness a save can fail on a file system that grants everything: a job in a sub-directory named like
      a job file keeps the job `n` from being saved, and makes a nameless one appear. */
  lemma DirectoryBlocks(base: Path, t: Tree<Job>, n: string, y: string, a: Job, b: Job, d: Disk, e: Disk)
    requires Sound(base, t) && Plain(n) && n != "" && n[0] != '.' && Plain(y)
    requires a.name == n + ".conf" + "/" + y && b.name == n
    requires base + [n + ".conf"] !in t.files && base + [n + ".conf", y + ".conf"] !in t.dirs && |base| < d.depth
    ensures
      var r := Replay(base, t, [SaveOp(a, d), SaveOp(b, e)]);
      Lookup(base, r, n) == None && Lookup(base, r, "") == Some(NAMELESS)
  {
    hide Lookup, Sound, Listed, AfterSave, PathOf;
    var p, t1 := base + [n + ".conf"], AfterSave(base, t, a.name, a, d);
    SubDirectoryMade(base, t, n, y, a, d);
    PlainPath(base, t.dirs, n);
    SaveOutcome(base, t, a.name, a, d);
    SaveOutcome(base, t1, n, b, e);
    BlockedStays(base, t1, b, e, p);
    assert [SaveOp(a, d), SaveOp(b, e)][..1] == [SaveOp(a, d)];
    assert Replay(base, t, []) == t && Replay(base, t, [SaveOp(a, d)]) == t1;
  }

  lemma BlockedStays(base: Path, t: Tree<Job>, b: Job, e: Disk, p: Path)
    requires Sound(base, t) && p in t.dirs && Listed(base, p) && PathOf(base, b.name) == p && b.name != ""
    ensures
      var r := AfterSave(base, t, b.name, b, e);
      Lookup(base, r, b.name) == None && Lookup(base, r, "") == Some(NAMELESS)
  {
    hide PathOf, Listed;
    SaveOutcome(base, t, b.name, b, e);
  }

  lemma SubDirectoryMade(base: Path, t: Tree<Job>, n: string, y: string, a: Job, d: Disk)
    requires Sound(base, t) && Plain(n) && Plain(y) && a.name == n + ".conf" + "/" + y
    requires base + [n + ".conf"] !in t.files && base + [n + ".conf", y + ".conf"] !in t.dirs && |base| < d.depth
    ensures base + [n + ".conf"] in AfterSave(base, t, a.name, a, d).dirs
  {
    var p, q := base + [n + ".conf"], base + [n + ".conf", y + ".conf"];
    LastPart(n);
    SplitNone(n + ".conf", '/');
    ConfIsName(n + ".conf");
    SubdirectoryPath(base, n + ".conf", y);
    RemoveBlocks(base, t, a.name, d);
    forall k | 0 <= k < |q|
      ensures q[..k] !in t.files
    {
      if k <= |base| {
        PrefixOfDir(base, t, base, k);
        assert q[..k] == base[..k];
      } else {
        assert q[..k] == p;
      }
    }
    assert q[..|base| + 1] == p;
    assert p in Prefixes(q, d.depth);
  }
}
