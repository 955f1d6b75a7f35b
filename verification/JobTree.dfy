/** The directory tree that job files live in: where a name leads, and when the file system lets a file be
    written or removed there. `F` is what a file holds. */
module JobTrees {
  import opened Paths
  import opened Splitting

  /** An absolute path as its components. */
  type Path = seq<string>

  datatype Tree<F> = Tree(files: map<Path, F>, dirs: set<Path>)

  /** What the file system grants: a removal, new directories down to `depth`, a write. */
  datatype Disk = Disk(removes: bool, depth: nat, writes: bool)

  predicate Conf(part: string) {
    |part| >= 5 && part[|part| - 5..] == ".conf"
  }

  function Parent(p: Path): Path
    requires p != []
  {
    p[..|p| - 1]
  }

  /** Every directory lies in one, and so does every file; nothing is both. */
  ghost predicate Sound<F>(base: Path, t: Tree<F>) {
    && base in t.dirs
    && (forall q :: q in t.dirs && q != [] ==> Parent(q) in t.dirs)
    && (forall p :: p in t.files ==> p != [] && Parent(p) in t.dirs && p !in t.dirs)
  }

  lemma {:induction false} PrefixOfDir<F>(base: Path, t: Tree<F>, q: Path, k: nat)
    requires Sound(base, t) && q in t.dirs && k <= |q|
    ensures q[..k] in t.dirs
    decreases |q| - k
  {
    if k == |q| {
      assert q[..k] == q;
    } else {
      PrefixOfDir(base, t, q, k + 1);
      assert q[..k] == Parent(q[..k + 1]);
    }
  }

  // ----- Where a name leads -----

  function Parts(name: string): seq<string> {
    SplitOn(name + ".conf", '/')
  }

  /** The file of a job: the name may contain slashes and dots, which are resolved lexically. */
  function PathOf(base: Path, name: string): Path {
    Resolve(Qt(false), base, Parts(name))
  }

  /** Walking the raw path needs each directory on the way, also those that `..` leaves again. */
  predicate Passable(dirs: set<Path>, acc: Path, parts: seq<string>)
    decreases |parts|
  {
    |parts| <= 1
    || (var next := Push(Qt(false), acc, parts[0]);
        next in dirs && Passable(dirs, next, parts[1..]))
  }

  predicate Reached(base: Path, dirs: set<Path>, name: string) {
    Passable(dirs, base, Parts(name))
  }

  /** The directory iterator shows what lies in the jobs directory itself, except hidden entries. */
  predicate Shown(base: Path, p: Path) {
    |p| == |base| + 1 && p[..|base|] == base && p[|base|] != "" && p[|base|][0] != '.'
  }

  /** Entries taken for job files, be they files or directories. */
  predicate Listed(base: Path, p: Path) {
    Shown(base, p) && Conf(p[|base|])
  }

  predicate ListedDir(base: Path, dirs: set<Path>) {
    exists p :: p in dirs && Listed(base, p)
  }

  // ----- Writing and removing -----

  function Prefixes(p: Path, depth: nat): set<Path> {
    set k: nat | k < |p| && k <= depth :: p[..k]
  }

  /** A directory has the file's name, or a file stands on the way to it. */
  predicate Blocked<F>(t: Tree<F>, p: Path) {
    p in t.dirs || exists k :: 0 <= k < |p| && p[..k] in t.files
  }

  /** `QSettings` makes the missing directories and writes the file. */
  function AfterWrite<F>(t: Tree<F>, p: Path, f: F, d: Disk): Tree<F>
    requires p != []
  {
    if Blocked(t, p) then t
    else
      var dirs := t.dirs + Prefixes(p, d.depth);
      Tree(if Parent(p) in dirs && d.writes then t.files[p := f] else t.files, dirs)
  }

  predicate Removed<F>(base: Path, t: Tree<F>, name: string, d: Disk) {
    PathOf(base, name) in t.files && Reached(base, t.dirs, name) && d.removes
  }

  /** `QFile::remove` takes files only, by their raw path. */
  function AfterRemove<F>(base: Path, t: Tree<F>, name: string, d: Disk): Tree<F> {
    if Removed(base, t, name, d) then t.(files := t.files - {PathOf(base, name)}) else t
  }

  /** An old file is removed before the new one is written. */
  function AfterSave<F>(base: Path, t: Tree<F>, name: string, f: F, d: Disk): Tree<F> {
    PathOfFile(base, name);
    AfterWrite(AfterRemove(base, t, name, d), PathOf(base, name), f, d)
  }

  /** A save takes effect. */
  predicate Written<F>(base: Path, t: Tree<F>, name: string, d: Disk) {
    PathOfFile(base, name);
    var p := PathOf(base, name);
    !Blocked(t, p) && d.writes && (Parent(p) in t.dirs || |p| - 1 <= d.depth)
  }

  /** What a save does to every path: the new file is there exactly if the save took effect; without effect the
      old one is lost exactly if it was removed. No other file changes, and no directory goes. */
  lemma SaveOutcome<F>(base: Path, t: Tree<F>, name: string, f: F, d: Disk)
    requires Sound(base, t)
    ensures
      var p, r := PathOf(base, name), AfterSave(base, t, name, f, d);
      && r.files == (if Written(base, t, name, d) then t.files[p := f]
                     else if Removed(base, t, name, d) then t.files - {p} else t.files)
      && t.dirs <= r.dirs <= t.dirs + Prefixes(p, |p|)
      && Sound(base, r)
  {
    var p, t1 := PathOf(base, name), AfterRemove(base, t, name, d);
    PathOfFile(base, name);
    RemoveBlocks(base, t, name, d);
    WriteSound(base, t1, p, f, d);
    ParentMade(t1, p, d);
    assert t1.files[p := f] == t.files[p := f];
    forall q | q in Prefixes(p, d.depth)
      ensures q in Prefixes(p, |p|)
    {}
  }

  /** A save whose write is refused never brings the new file, and loses the old one exactly if that was reached and
      removed. */
  lemma RefusedWrite<F>(base: Path, t: Tree<F>, name: string, f: F, d: Disk)
    requires Sound(base, t) && !d.writes
    ensures
      var p, r := PathOf(base, name), AfterSave(base, t, name, f, d);
      && (p in r.files <==> p in t.files && !(d.removes && Reached(base, t.dirs, name)))
      && (p in r.files ==> r.files[p] == t.files[p])
  {
    hide PathOf, Reached, AfterSave, Sound, Blocked;
    SaveOutcome(base, t, name, f, d);
  }

  lemma ParentMade<F>(t: Tree<F>, p: Path, d: Disk)
    requires p != []
    ensures Parent(p) in Prefixes(p, d.depth) <==> |p| - 1 <= d.depth
  {
    var k: nat := |p| - 1;
    assert p[..k] == Parent(p);
    assert k <= d.depth ==> p[..k] in Prefixes(p, d.depth);
  }

  lemma RemoveBlocks<F>(base: Path, t: Tree<F>, name: string, d: Disk)
    requires Sound(base, t)
    ensures
      var r := AfterRemove(base, t, name, d);
      Sound(base, r) && (Blocked(r, PathOf(base, name)) <==> Blocked(t, PathOf(base, name)))
  {
    var p, r := PathOf(base, name), AfterRemove(base, t, name, d);
    if k :| 0 <= k < |p| && p[..k] in t.files {
      assert p[..k] != p;
      assert p[..k] in r.files;
    }
  }

  lemma WriteSound<F>(base: Path, t: Tree<F>, p: Path, f: F, d: Disk)
    requires Sound(base, t) && p != []
    ensures Sound(base, AfterWrite(t, p, f, d))
  {
    if !Blocked(t, p) {
      var made := Prefixes(p, d.depth);
      forall q | q in made
        ensures q !in t.files && q != p
        ensures q != [] ==> Parent(q) in made
      {
        var k: nat :| k < |p| && k <= d.depth && q == p[..k];
        if k > 0 {
          assert Parent(q) == p[..k - 1];
        }
      }
    }
  }

  // ----- The last component -----

  lemma {:induction false} LastPart(name: string)
    ensures
      var parts := Parts(name);
      Conf(parts[|parts| - 1])
  {
    if name == "" {
      assert name + ".conf" == ".conf";
      SplitNone(".conf", '/');
    } else {
      LastPart(name[1..]);
      assert (name + ".conf")[1..] == name[1..] + ".conf";
      assert (name + ".conf")[0] == name[0];
      var r, parts := Parts(name[1..]), Parts(name);
      if name[0] != '/' && |r| == 1 {
        assert parts == [[name[0]] + r[0]];
        assert ([name[0]] + r[0])[|r[0]| + 1 - 5..] == r[0][|r[0]| - 5..];
      } else {
        assert parts[|parts| - 1] == r[|r| - 1];
      }
    }
  }

  lemma ConfIsName(part: string)
    requires Conf(part)
    ensures !Skipped(part) && !Up(part)
  {}

  lemma {:induction false} ResolveLast(acc: Path, parts: seq<string>)
    requires parts != [] && !Skipped(parts[|parts| - 1]) && !Up(parts[|parts| - 1])
    ensures
      var r := Resolve(Qt(false), acc, parts);
      r != [] && r[|r| - 1] == parts[|parts| - 1]
    decreases |parts|
  {
    var next := Push(Qt(false), acc, parts[0]);
    if |parts| == 1 {
      assert parts[1..] == [];
      assert Resolve(Qt(false), acc, parts) == next;
    } else {
      ResolveLast(next, parts[1..]);
    }
  }

  lemma PathOfFile(base: Path, name: string)
    ensures
      var p := PathOf(base, name);
      p != [] && Conf(p[|p| - 1])
  {
    LastPart(name);
    var parts := Parts(name);
    ConfIsName(parts[|parts| - 1]);
    ResolveLast(base, parts);
  }

  // ----- Names without slashes -----

  predicate Plain(name: string) {
    '/' !in name
  }

  /** A name without slashes has a file of its own in the jobs directory, which is always reached and is listed
      exactly if the name is neither empty nor starts with a dot. */
  lemma PlainPath(base: Path, dirs: set<Path>, name: string)
    requires Plain(name)
    ensures PathOf(base, name) == base + [name + ".conf"]
    ensures Reached(base, dirs, name)
    ensures Listed(base, PathOf(base, name)) <==> name != "" && name[0] != '.'
  {
    var file := name + ".conf";
    SplitNone(file, '/');
    LastPart(name);
    ConfIsName(file);
    assert Resolve(Qt(false), base, [file]) == Resolve(Qt(false), Push(Qt(false), base, file), [file][1..]);
    assert file[0] == if name == "" then '.' else name[0];
  }

  lemma PlainPathsApart(base: Path, m: string, n: string)
    requires Plain(m) && Plain(n)
    ensures PathOf(base, m) == PathOf(base, n) <==> m == n
  {
    PlainPath(base, {}, m);
    PlainPath(base, {}, n);
    if base + [m + ".conf"] == base + [n + ".conf"] {
      assert (base + [m + ".conf"])[|base|] == (base + [n + ".conf"])[|base|];
      assert m == (m + ".conf")[..|m + ".conf"| - 5] && n == (n + ".conf")[..|n + ".conf"| - 5];
    }
  }

  // ----- Names with slashes -----

  lemma FirstPart(base: Path, dirs: set<Path>, dir: string, name: string)
    requires Plain(dir)
    ensures
      var next := Push(Qt(false), base, dir);
      && Parts(dir + "/" + name) == [dir] + Parts(name)
      && PathOf(base, dir + "/" + name) == PathOf(next, name)
      && (Reached(base, dirs, dir + "/" + name) <==> next in dirs && Reached(next, dirs, name))
  {
    assert (dir + "/" + name) + ".conf" == dir + ['/'] + (name + ".conf");
    SplitFirst(dir, name + ".conf", '/');
    assert ([dir] + Parts(name))[1..] == Parts(name);
  }

  /** Two names can share a file, */
  lemma DotSlashPath(base: Path, dirs: set<Path>, name: string)
    requires base in dirs
    ensures PathOf(base, "./" + name) == PathOf(base, name)
    ensures Reached(base, dirs, "./" + name) <==> Reached(base, dirs, name)
  {
    FirstPart(base, dirs, ".", name);
    assert "." + "/" + name == "./" + name;
  }

  /** also by climbing out of a directory, which is then needed to reach the file but not to write it, */
  lemma ClimbingPath(base: Path, dirs: set<Path>, dir: string, name: string)
    requires base in dirs && Plain(dir) && !Skipped(dir) && !Up(dir)
    ensures PathOf(base, dir + "/../" + name) == PathOf(base, name)
    ensures Reached(base, dirs, dir + "/../" + name) <==> base + [dir] in dirs && Reached(base, dirs, name)
  {
    assert dir + "/../" + name == dir + "/" + (".." + "/" + name);
    FirstPart(base, dirs, dir, ".." + "/" + name);
    FirstPart(base + [dir], dirs, "..", name);
    assert Push(Qt(false), base + [dir], "..") == (base + [dir])[..|base|] == base;
  }

  /** and a name can lie in a sub-directory, where it is not listed. */
  lemma SubdirectoryPath(base: Path, dir: string, name: string)
    requires Plain(dir) && Plain(name) && !Skipped(dir) && !Up(dir)
    ensures PathOf(base, dir + "/" + name) == base + [dir, name + ".conf"]
    ensures !Listed(base, PathOf(base, dir + "/" + name))
  {
    FirstPart(base, {}, dir, name);
    PlainPath(base + [dir], {}, name);
  }

  // ----- Names that the file system never blocks -----

  predicate TameParts(parts: seq<string>) {
    forall i :: 0 <= i < |parts| ==> !Up(parts[i]) && (i < |parts| - 1 ==> !Conf(parts[i]))
  }

  /** No `..`, and no component but the last one ends in `.conf`. */
  predicate Tame(name: string) {
    TameParts(Parts(name))
  }

  lemma PlainIsTame(name: string)
    requires Plain(name)
    ensures Tame(name)
  {
    SplitNone(name + ".conf", '/');
    LastPart(name);
    ConfIsName(name + ".conf");
  }

  /** Below the jobs directory no directory is named like a job file. */
  ghost predicate TameDirs(base: Path, dirs: set<Path>) {
    forall q :: q in dirs && |q| > |base| && q[..|base|] == base ==> !Conf(q[|q| - 1])
  }

  predicate TamePath(base: Path, p: Path) {
    |p| > |base| && p[..|base|] == base && forall i :: |base| <= i < |p| - 1 ==> !Conf(p[i])
  }

  lemma {:induction false} TameResolve(base: Path, dirs: set<Path>, acc: Path, parts: seq<string>)
    requires |acc| >= |base| && acc[..|base|] == base && forall i :: |base| <= i < |acc| ==> !Conf(acc[i])
    requires parts != [] && Conf(parts[|parts| - 1]) && TameParts(parts)
    ensures
      var p := Resolve(Qt(false), acc, parts);
      && TamePath(base, p) && |p| > |acc| && p[..|acc|] == acc
      && ((forall k :: 0 <= k < |p| ==> p[..k] in dirs) ==> Passable(dirs, acc, parts))
    decreases |parts|
  {
    var next := Push(Qt(false), acc, parts[0]);
    var p := Resolve(Qt(false), acc, parts);
    if |parts| == 1 {
      ConfIsName(parts[0]);
      assert parts[1..] == [];
      assert Resolve(Qt(false), next, []) == next == acc + [parts[0]];
    } else {
      TameResolve(base, dirs, next, parts[1..]);
      assert next == acc || next == acc + [parts[0]];
      assert p[..|acc|] == p[..|next|][..|acc|];
    }
  }

  /** A tame name leads below the jobs directory, and its file is reached if it is there. */
  lemma TameName<F>(base: Path, t: Tree<F>, name: string)
    requires Tame(name) && Sound(base, t)
    ensures
      var p := PathOf(base, name);
      TamePath(base, p) && (p in t.files ==> Reached(base, t.dirs, name))
  {
    LastPart(name);
    TameResolve(base, t.dirs, base, Parts(name));
    var p := PathOf(base, name);
    if p in t.files {
      forall k | 0 <= k < |p|
        ensures p[..k] in t.dirs
      {
        PrefixOfDir(base, t, Parent(p), k);
        assert p[..k] == Parent(p)[..k];
      }
    }
  }

  /** Nothing blocks a tame name while no directory is named like a job file. */
  lemma TameIsFree<F>(base: Path, t: Tree<F>, name: string)
    requires Tame(name) && Sound(base, t) && TameDirs(base, t.dirs)
    requires forall p :: p in t.files ==> p != [] && Conf(p[|p| - 1])
    ensures !Blocked(t, PathOf(base, name))
  {
    TameName(base, t, name);
    PathOfFile(base, name);
    var p := PathOf(base, name);
    forall k | 0 <= k < |p|
      ensures p[..k] !in t.files
    {
      if k <= |base| {
        PrefixOfDir(base, t, base, k);
        assert p[..k] == p[..|base|][..k];
      } else {
        assert p[..k][k - 1] == p[k - 1];
      }
    }
  }

  /** Saving under a tame name makes no directory that is named like a job file. */
  lemma TameDirsStay(base: Path, dirs: set<Path>, more: set<Path>, p: Path)
    requires TameDirs(base, dirs) && TamePath(base, p) && more <= dirs + Prefixes(p, |p|)
    ensures TameDirs(base, more)
  {
    forall q | q in more && |q| > |base| && q[..|base|] == base
      ensures !Conf(q[|q| - 1])
    {
      if q !in dirs {
        var k: nat :| k < |p| && q == p[..k];
        assert q[|q| - 1] == p[k - 1];
      }
    }
  }
}
