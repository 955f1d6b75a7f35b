/** One virtual machine of a PBS backup: choosing the snapshot, staging its files in the machine's
    directory, packaging them into an archive, and cleaning up. */
module PbsStaging {
  import opened Commands

  // ----- Choosing the snapshot -----

  predicate IsMax(times: seq<int>, k: nat) {
    k < |times| && forall i :: 0 <= i < |times| ==> times[i] <= times[k]
  }

  predicate IsFirstMax(times: seq<int>, k: nat) {
    IsMax(times, k) && forall i :: 0 <= i < k ==> times[i] < times[k]
  }

  /** The loop over the snapshots' `backup-time`. It finds the first newest snapshot exactly if some time is
      positive or the first snapshot is a newest one, so in particular if no time is negative. */
  method NewestSnapshot(times: seq<int>) returns (li: nat)
    requires times != []
    ensures li < |times|
    ensures IsFirstMax(times, li) <==> (exists i :: 0 <= i < |times| && times[i] > 0) || IsMax(times, 0)
    ensures (forall i :: 0 <= i < |times| ==> times[i] >= 0) ==> IsFirstMax(times, li)
  {
    var lb := 0;
    li := 0;
    for i := 0 to |times|
      invariant li < |times| && lb >= 0
      invariant lb == 0 ==> li == 0 && forall k :: 0 <= k < i ==> times[k] <= 0
      invariant lb > 0 ==> li < i && lb == times[li]
      invariant lb > 0 ==> forall k :: 0 <= k < i ==> times[k] <= lb && (k < li ==> times[k] < lb)
    {
      if times[i] > lb {
        li := i;
        lb := times[i];
      }
    }
  }

  // ----- File names -----

  predicate EndsWith(s: string, suffix: string) {
    |suffix| <= |s| && s[|s| - |suffix|..] == suffix
  }

  function LastDot(s: string): (i: int)
    ensures -1 <= i < |s|
    ensures i >= 0 ==> s[i] == '.'
    ensures forall k :: i < k < |s| ==> s[k] != '.'
  {
    if s == "" then -1 else if s[|s| - 1] == '.' then |s| - 1 else LastDot(s[..|s| - 1])
  }

  /** The capture of `^(.*?)\.[^.]*$`: the name without its last extension. A dot does not match a newline, so
      without a match the capture is empty. */
  function StripExtension(name: string): string {
    var i := LastDot(name);
    if i < 0 || '\n' in name[..i] then "" else name[..i]
  }

  datatype Kind = Config | Image | Other

  function KindOf(file: string): Kind {
    if EndsWith(file, ".conf") then Config
    else if EndsWith(file, ".pxar") || EndsWith(file, ".img") then Image
    else Other
  }

  /** The files to stage for a snapshot, in order. */
  function Staged(names: seq<string>): seq<string> {
    if names == [] then []
    else
      var file := StripExtension(names[|names| - 1]);
      Staged(names[..|names| - 1]) + if KindOf(file) == Other then [] else [file]
  }

  /** The last config file of the list, if any. */
  function LastConfig(files: seq<string>): string {
    if files == [] then ""
    else if KindOf(files[|files| - 1]) == Config then files[|files| - 1]
    else LastConfig(files[..|files| - 1])
  }

  function Images(files: seq<string>): seq<string> {
    if files == [] then []
    else Images(files[..|files| - 1]) + if KindOf(files[|files| - 1]) == Image then [files[|files| - 1]] else []
  }

  lemma {:induction false} StagedKinds(names: seq<string>)
    ensures forall f :: f in Staged(names) ==> KindOf(f) != Other
  {
    if names != [] {
      StagedKinds(names[..|names| - 1]);
    }
  }

  lemma {:induction false} ImagesOf(files: seq<string>, f: string)
    ensures f in Images(files) <==> f in files && KindOf(f) == Image
  {
    if files != [] {
      var n := |files| - 1;
      ImagesOf(files[..n], f);
      assert files == files[..n] + [files[n]];
    }
  }

  lemma {:induction false} LastConfigOf(files: seq<string>)
    ensures LastConfig(files) == "" || (LastConfig(files) in files && KindOf(LastConfig(files)) == Config)
    ensures LastConfig(files) == "" ==> forall f :: f in files ==> KindOf(f) != Config
  {
    if files != [] {
      LastConfigOf(files[..|files| - 1]);
      assert files == files[..|files| - 1] + [files[|files| - 1]];
    }
  }

  function Lower(c: char): char {
    if 'A' <= c <= 'Z' then (c as int + 32) as char else c
  }

  lemma EndsWithMeans(s: string, suffix: string)
    ensures EndsWith(s, suffix) <==> exists p: string :: s == p + suffix
  {
    if EndsWith(s, suffix) {
      assert s == s[..|s| - |suffix|] + suffix;
    }
  }

  lemma {:induction false} LastDotAt(stem: string, ext: string)
    requires '.' !in ext
    ensures LastDot(stem + "." + ext) == |stem|
  {
    var s := stem + "." + ext;
    assert s[|stem|] == '.';
    forall k | |stem| < k < |s|
      ensures s[k] != '.'
    {
      assert s[k] == ext[k - |stem| - 1];
    }
  }

  lemma StripAt(stem: string, ext: string)
    requires '.' !in ext
    ensures StripExtension(stem + "." + ext) == if '\n' in stem then "" else stem
  {
    LastDotAt(stem, ext);
    assert (stem + "." + ext)[..|stem|] == stem;
  }

  /** What one more file of a snapshot adds: a name that ends in `.conf`, `.pxar` or `.img` before its last extension
      is staged without that extension. The config file is the last such name, the images are the others. */
  lemma StagedAdds(names: seq<string>, stem: string, ext: string)
    requires '\n' !in stem && '.' !in ext
    ensures
      var before, after := Staged(names), Staged(names + [stem + "." + ext]);
      var conf, image := EndsWith(stem, ".conf"), EndsWith(stem, ".pxar") || EndsWith(stem, ".img");
      && !(conf && image)
      && after == before + (if conf || image then [stem] else [])
      && LastConfig(after) == (if conf then stem else LastConfig(before))
      && Images(after) == Images(before) + (if image then [stem] else [])
  {
    var all := names + [stem + "." + ext];
    var conf := EndsWith(stem, ".conf");
    StripAt(stem, ext);
    StagedStep(all, |names|);
    assert all[..|names|] == names && all[..|names| + 1] == all;
    if conf {
      EndsAlike(stem, ".conf");
      if EndsWith(stem, ".pxar") {
        EndsAlike(stem, ".pxar");
      }
      if EndsWith(stem, ".img") {
        EndsAlike(stem, ".img");
      }
    }
    assert Staged(names) + [] == Staged(names) && Images(Staged(names)) + [] == Images(Staged(names));
  }

  /** Other names, without a dot or with a newline before the last one, add nothing. */
  lemma StagedSkips(names: seq<string>, name: string, stem: string, ext: string)
    requires '.' !in name || (name == stem + "." + ext && '.' !in ext && '\n' in stem)
    ensures Staged(names + [name]) == Staged(names)
  {
    var all := names + [name];
    if '.' !in name {
      assert LastDot(name) == -1;
    } else {
      StripAt(stem, ext);
    }
    assert all[..|names|] == names;
    assert Staged(names) + [] == Staged(names);
  }

  const ARCHIVE: string := "vzdump-qemu-"

  /** The name filter `vzdump-qemu-*`; directory name filters ignore letter case. */
  predicate IsArchive(name: string) {
    '/' !in name && |name| >= |ARCHIVE| && forall i :: 0 <= i < |ARCHIVE| ==> Lower(name[i]) == ARCHIVE[i]
  }

  function ArchiveName(vmid: string, stamp: string): string {
    ARCHIVE + vmid + "-" + stamp + ".vma.zst"
  }

  lemma EndsAlike(s: string, suffix: string)
    requires EndsWith(s, suffix) && suffix != ""
    ensures s[|s| - 1] == suffix[|suffix| - 1]
  {
    assert s[|s| - |suffix|..][|suffix| - 1] == s[|s| - 1];
  }

  /** The archive is named after the machine and the snapshot's time. */
  lemma ArchiveNameParts(vmid: string, stamp: string)
    ensures |ArchiveName(vmid, stamp)| == 21 + |vmid| + |stamp|
    ensures ArchiveName(vmid, stamp)[12..12 + |vmid|] == vmid
    ensures ArchiveName(vmid, stamp)[13 + |vmid|..13 + |vmid| + |stamp|] == stamp
  {}

  /** The archive's own name matches the filter and is never a staged file's. */
  lemma ArchiveNameFacts(vmid: string, stamp: string)
    requires '/' !in vmid && '/' !in stamp
    ensures IsArchive(ArchiveName(vmid, stamp)) && KindOf(ArchiveName(vmid, stamp)) == Other
  {
    var n := ArchiveName(vmid, stamp);
    assert IsArchive(n) by {
      assert n == ARCHIVE + (vmid + "-" + stamp + ".vma.zst");
      assert '/' !in ARCHIVE && '/' !in "-" && '/' !in ".vma.zst";
      forall i | 0 <= i < |ARCHIVE|
        ensures Lower(n[i]) == ARCHIVE[i]
      {
        assert n[i] == ARCHIVE[i];
      }
    }
    assert n[|n| - 1] == 't' by {
      assert n == (ARCHIVE + vmid + "-" + stamp + ".vma.zs") + "t";
    }
    if EndsWith(n, ".conf") {
      EndsAlike(n, ".conf");
    }
    if EndsWith(n, ".pxar") {
      EndsAlike(n, ".pxar");
    }
    if EndsWith(n, ".img") {
      EndsAlike(n, ".img");
    }
  }

  /** The filter takes the archives of virtual machines in either letter case, but not those of containers. */
  lemma ArchiveFilter(rest: string)
    ensures IsArchive("vzdump-qemu-" + rest) <==> '/' !in rest
    ensures IsArchive("VZDUMP-QEMU-" + rest) <==> '/' !in rest
    ensures !IsArchive("vzdump-lxc-" + rest)
  {
    var a, b, c := "vzdump-qemu-" + rest, "VZDUMP-QEMU-" + rest, "vzdump-lxc-" + rest;
    assert '/' !in "vzdump-qemu-" && '/' !in "VZDUMP-QEMU-";
    var lower, upper := "vzdump-qemu-", "VZDUMP-QEMU-";
    forall i | 0 <= i < |ARCHIVE|
      ensures Lower(a[i]) == ARCHIVE[i] && Lower(b[i]) == ARCHIVE[i]
    {
      assert a[i] == lower[i] && b[i] == upper[i];
    }
    assert c[7] == 'l' && ARCHIVE[7] == 'q';
  }

  // ----- The directory -----

  /** The contents of a file, of which only identity matters. */
  type Content = int

  /** `a` and `b` have the same files outside `names`, with the same contents. */
  ghost predicate SameOutside(a: map<string, Content>, b: map<string, Content>, names: seq<string>) {
    forall f :: f !in names ==> (f in a <==> f in b) && (f in a ==> a[f] == b[f])
  }

  lemma SameOutsideStep(a: map<string, Content>, b: map<string, Content>, c: map<string, Content>,
        names: seq<string>, file: string)
    requires SameOutside(b, a, names) && SameOutside(c, b, [file])
    ensures SameOutside(c, a, names + [file])
  {
    forall f | f !in names + [file]
      ensures f !in names && f !in [file]
    {
      assert forall i :: 0 <= i < |names| ==> (names + [file])[i] == names[i];
      assert (names + [file])[|names|] == file;
    }
  }

  lemma StagedStep(names: seq<string>, j: nat)
    requires j < |names|
    ensures
      var file := StripExtension(names[j]);
      var before, after := Staged(names[..j]), Staged(names[..j + 1]);
      if KindOf(file) == Other then after == before
      else
        && after == before + [file]
        && LastConfig(after) == (if KindOf(file) == Config then file else LastConfig(before))
        && Images(after) == (if KindOf(file) == Image then Images(before) + [file] else Images(before))
        && file != ""
  {
    assert names[..j + 1][..j] == names[..j];
    var file, before := StripExtension(names[j]), Staged(names[..j]);
    assert before + [] == before;
    assert (before + [file])[..|before|] == before;
    assert Images(before) + [] == Images(before);
  }

  /** A restore leaves its file if it succeeds; otherwise it may leave a partial one. */
  predicate Leaves(c: Command) {
    (c.completed && c.code == 0) || c.effect
  }

  /** The last place of a file in the list. */
  function LastIndex(files: seq<string>, f: string): (k: nat)
    requires f in files
    ensures k < |files| && files[k] == f && forall i :: k < i < |files| ==> files[i] != f
  {
    if files[|files| - 1] == f then |files| - 1 else LastIndex(files[..|files| - 1], f)
  }

  /** The staged file is there once all downloads are made: its last restore left it. */
  predicate Arrives(staged: seq<string>, restore: nat -> Command, f: string) {
    f in staged && Leaves(restore(LastIndex(staged, f)))
  }

  /** The downloads fail if one reports an error or the key file is missing. */
  ghost predicate DownloadFails(staged: seq<string>, keyMissing: bool, restore: nat -> Command) {
    (keyMissing && staged != []) || exists k :: 0 <= k < |staged| && restore(k).Reported() != 0
  }

  /** The program trusts the exit codes: if no download fails and all of them were completed, every staged file
      is there. */
  lemma CompletedDownloadsArrive(staged: seq<string>, keyMissing: bool, restore: nat -> Command)
    requires forall k :: 0 <= k < |staged| ==> restore(k).completed
    ensures !DownloadFails(staged, keyMissing, restore) ==> forall f :: f in staged ==> Arrives(staged, restore, f)
  {
    if !DownloadFails(staged, keyMissing, restore) {
      forall f | f in staged
        ensures Arrives(staged, restore, f)
      {
        assert restore(LastIndex(staged, f)).Reported() == 0;
      }
    }
  }

  /** Downloads that never started do not count as failures, although nothing arrives. */
  lemma UnstartedDownloadsPass(staged: seq<string>, code: int)
    ensures
      var restore := (k: nat) => Command(false, code, false);
      !DownloadFails(staged, false, restore) && forall f :: !Arrives(staged, restore, f)
  {}

  lemma OneMore(staged: seq<string>, file: string, keyMissing: bool, restore: nat -> Command)
    ensures DownloadFails(staged + [file], keyMissing, restore)
            <==> DownloadFails(staged, keyMissing, restore) || keyMissing || restore(|staged|).Reported() != 0
  {
    var all := staged + [file];
    if restore(|staged|).Reported() != 0 {
      assert 0 <= |staged| < |all|;
    }
  }

  lemma ArrivesStep(staged: seq<string>, restore: nat -> Command, file: string, f: string)
    ensures Arrives(staged + [file], restore, f) <==>
            if f == file then Leaves(restore(|staged|)) else Arrives(staged, restore, f)
  {
    var all := staged + [file];
    assert all[|staged|] == file && all[..|staged|] == staged;
    if f in staged {
      assert all[LastIndex(staged, f)] == f;
    }
  }

  /** How the directory of a machine changes from `before` to `after`; `out` is the new archive's name.
      A failed download leaves everything but the staged names untouched, so the previous archive survives.
      Otherwise no file with an archive name is left but the new one, if the pipeline created it; every other
      file keeps its contents; and all staged files are gone exactly if each config file that arrived is the last
      one of the list or carries an archive name. */
  ghost predicate VmOutcome(before: map<string, Content>, after: map<string, Content>, staged: seq<string>,
        keyMissing: bool, restore: nat -> Command, out: string, created: bool)
  {
    if DownloadFails(staged, keyMissing, restore) then
      && SameOutside(after, before, staged)
      && forall f :: f in staged ==> (f in after <==> Arrives(staged, restore, f))
    else
      && (forall f :: f in after && IsArchive(f) ==> created && f == out)
      && (created ==> out in after)
      && (forall f :: f !in staged && !IsArchive(f) ==>
          (f in after <==> f in before) && (f in after ==> after[f] == before[f]))
      && ((forall f :: f in staged ==> f !in after)
          <==> forall f :: f in staged && KindOf(f) == Config && Arrives(staged, restore, f) ==>
            f == LastConfig(staged) || IsArchive(f))
  }

  /** What packaging and cleaning up leave of the directory `d` that the downloads produced. */
  lemma AfterCleanUp(d: map<string, Content>, p: map<string, Content>, e: map<string, Content>,
                     staged: seq<string>, out: string, created: bool)
    requires forall f :: f in p <==> (created && f == out) || (f in d && !IsArchive(f))
    requires forall f :: f in e <==> f in p && f != LastConfig(staged) && f !in Images(staged)
    requires IsArchive(out) && out !in staged && (forall f :: f in staged ==> KindOf(f) != Other) && "" !in d
    ensures forall f :: f in e && IsArchive(f) ==> created && f == out
    ensures created ==> out in e
    ensures forall f :: f !in staged && !IsArchive(f) ==> (f in e <==> f in d)
    ensures (forall f :: f in staged ==> f !in e)
            <==> forall f :: f in staged && KindOf(f) == Config && f in d ==> f == LastConfig(staged) || IsArchive(f)
  {
    hide IsArchive, KindOf, LastConfig, Images;
    LastConfigOf(staged);
    forall f
      ensures f in Images(staged) <==> f in staged && KindOf(f) == Image
    {
      ImagesOf(staged, f);
    }
    NotEmptyArchive(out);
  }

  lemma OutcomeOfFailure(before: map<string, Content>, d: map<string, Content>, staged: seq<string>,
        keyMissing: bool, restore: nat -> Command, out: string, created: bool)
    requires DownloadFails(staged, keyMissing, restore) && SameOutside(d, before, staged)
    requires forall f :: f in staged ==> (f in d <==> Arrives(staged, restore, f))
    ensures VmOutcome(before, d, staged, keyMissing, restore, out, created)
  {}

  lemma OutcomeOfSuccess(before: map<string, Content>, d: map<string, Content>, p: map<string, Content>,
        e: map<string, Content>, staged: seq<string>, keyMissing: bool, restore: nat -> Command, out: string,
        created: bool)
    requires !DownloadFails(staged, keyMissing, restore) && SameOutside(d, before, staged)
    requires forall f :: f in staged ==> (f in d <==> Arrives(staged, restore, f))
    requires forall f :: f in p <==> (created && f == out) || (f in d && !IsArchive(f))
    requires forall f :: f in p && f != out ==> p[f] == d[f]
    requires forall f :: f in e <==> f in p && f != LastConfig(staged) && f !in Images(staged)
    requires forall f :: f in e ==> e[f] == p[f]
    requires IsArchive(out) && out !in staged && (forall f :: f in staged ==> KindOf(f) != Other) && "" !in d
    ensures VmOutcome(before, e, staged, keyMissing, restore, out, created)
  {
    hide IsArchive, KindOf, LastConfig, Images, Arrives, DownloadFails, SameOutside;
    AfterCleanUp(d, p, e, staged, out, created);
    Unrelated(before, d, p, e, staged, out);
    assert forall f :: f in staged ==> (f in d <==> Arrives(staged, restore, f));
  }

  lemma Unrelated(before: map<string, Content>, d: map<string, Content>, p: map<string, Content>,
        e: map<string, Content>, staged: seq<string>, out: string)
    requires SameOutside(d, before, staged) && IsArchive(out)
    requires forall f :: f in p && f != out ==> f in d && p[f] == d[f]
    requires forall f :: f in e ==> f in p && e[f] == p[f]
    requires forall f :: f !in staged && !IsArchive(f) ==> (f in e <==> f in d)
    ensures forall f :: f !in staged && !IsArchive(f) ==> (f in e <==> f in before) && (f in e ==> e[f] == before[f])
  {
    hide IsArchive;
    forall f | f !in staged && !IsArchive(f)
      ensures (f in e <==> f in before) && (f in e ==> e[f] == before[f])
    {
      assert f in d <==> f in before;
    }
  }

  lemma NotEmptyArchive(name: string)
    requires IsArchive(name)
    ensures name != ""
  {}

  /** A download that reports an error, or a missing key file, keeps all files but the staged ones, so the old
      archives; */
  lemma ErrorKeepsArchives(before: map<string, Content>, after: map<string, Content>, staged: seq<string>,
        keyMissing: bool, restore: nat -> Command, out: string, created: bool, k: nat, f: string)
    requires VmOutcome(before, after, staged, keyMissing, restore, out, created)
    requires k < |staged| && (keyMissing || (restore(k).completed && restore(k).code != 0)) && f !in staged
    ensures (f in after <==> f in before) && (f in before ==> after[f] == before[f])
  {
    assert restore(k).completed && restore(k).code != 0 ==> restore(k).Reported() != 0;
  }

  /** without any of this they are replaced by what the pipeline creates. */
  lemma SuccessReplacesArchives(before: map<string, Content>, after: map<string, Content>, staged: seq<string>,
        restore: nat -> Command, out: string, created: bool, f: string)
    requires VmOutcome(before, after, staged, false, restore, out, created)
    requires forall k :: 0 <= k < |staged| ==> restore(k).completed && restore(k).code == 0
    ensures IsArchive(f) && f in after ==> created && f == out
    ensures created ==> out in after
  {
    assert forall k :: 0 <= k < |staged| ==> restore(k).Reported() == 0;
  }

  class VmDirectory {
    var files: map<string, Content>

    /** No file has an empty name; asking to remove one does nothing. */
    ghost predicate Valid()
      reads this
    {
      "" !in files
    }

    constructor (files: map<string, Content>)
      requires "" !in files
      ensures Valid() && this.files == files
    {
      this.files := files;
    }

    method Remove(name: string)
      requires Valid()
      modifies this
      ensures Valid() && files == old(files) - {name}
    {
      files := files - {name};
    }

    /** `proxmox-backup-client restore`, which cannot overwrite a file. */
    method Restore(file: string, c: Command) returns (code: int)
      requires Valid() && file != "" && file !in files
      modifies this
      ensures Valid() && code == c.Reported() && (file in files <==> Leaves(c))
      ensures SameOutside(files, old(files), [file])
    {
      code := c.Reported();
      if Leaves(c) {
        var content: Content := *;
        files := files[file := content];
      }
    }

    /** A file of that name is in the way of the download and is deleted first. */
    method Fetch(file: string, c: Command) returns (code: int)
      requires Valid() && file != ""
      modifies this
      ensures Valid() && code == c.Reported() && (file in files <==> Leaves(c))
      ensures SameOutside(files, old(files), [file])
    {
      if file in files {
        Remove(file);
      }
      code := Restore(file, c);
    }

    /** The download loop over the snapshot's file names; `restore(k)` is how the restore of the staged file
        number `k` goes. A missing key file fails every download. */
    method Download(names: seq<string>, keyMissing: bool, restore: nat -> Command)
      returns (conf: string, images: seq<string>, failed: bool)
      requires Valid()
      modifies this
      ensures Valid()
      ensures conf == LastConfig(Staged(names)) && images == Images(Staged(names))
      ensures SameOutside(files, old(files), Staged(names))
      ensures forall f :: f in Staged(names) ==> (f in files <==> Arrives(Staged(names), restore, f))
      ensures failed <==> DownloadFails(Staged(names), keyMissing, restore)
    {
      hide KindOf, Staged, LastConfig, Images, StripExtension, SameOutside, DownloadFails, Arrives, Leaves;
      conf, images, failed := "", [], false;
      var count := 0;
      NothingStaged(files, restore);
      assert names[..0] == [];
      for j := 0 to |names|
        invariant Valid() && count == |Staged(names[..j])|
        invariant conf == LastConfig(Staged(names[..j])) && images == Images(Staged(names[..j]))
        invariant SameOutside(files, old(files), Staged(names[..j]))
        invariant forall f :: f in Staged(names[..j]) ==> (f in files <==> Arrives(Staged(names[..j]), restore, f))
        invariant failed <==> DownloadFails(Staged(names[..j]), keyMissing, restore)
      {
        StagedStep(names, j);
        var file := StripExtension(names[j]);
        if KindOf(file) == Other {
          continue;
        }
        ghost var before, staged := files, Staged(names[..j]);
        if KindOf(file) == Config {
          conf := file;
        } else {
          images := images + [file];
        }
        var code := Fetch(file, restore(count));
        SameOutsideStep(old(files), before, files, staged, file);
        ArrivalsStep(before, files, staged, restore, file);
        OneMore(staged, file, keyMissing, restore);
        failed := failed || keyMissing || code != 0;
        count := count + 1;
      }
      assert names[..|names|] == names;
    }

    /** Old archives are removed before the pipeline runs; `created` is whether it leaves an output file. */
    method Package(outName: string, created: bool)
      requires Valid() && IsArchive(outName)
      modifies this
      ensures Valid()
      ensures forall f :: f in files <==> (created && f == outName) || (f in old(files) && !IsArchive(f))
      ensures forall f :: f in files && f != outName ==> files[f] == old(files)[f]
    {
      files := map f | f in files && !IsArchive(f) :: files[f];
      if created {
        var c: Content := *;
        files := files[outName := c];
      }
    }

    method CleanUp(conf: string, images: seq<string>)
      requires Valid()
      modifies this
      ensures Valid()
      ensures forall f :: f in files <==> f in old(files) && f != conf && f !in images
      ensures forall f :: f in files ==> files[f] == old(files)[f]
    {
      Remove(conf);
      for i := 0 to |images|
        invariant Valid()
        invariant forall f :: f in files <==> f in old(files) && f != conf && f !in images[..i]
        invariant forall f :: f in files ==> files[f] == old(files)[f]
      {
        Remove(images[i]);
        assert images[..i + 1] == images[..i] + [images[i]];
      }
      assert images[..|images|] == images;
    }

    /** A machine of type `vm`: stage, package, clean up. */
    method BackupVm(names: seq<string>, keyMissing: bool, restore: nat -> Command, vmid: string, stamp: string,
        created: bool)
      requires Valid() && '/' !in vmid && '/' !in stamp
      modifies this
      ensures Valid()
      ensures VmOutcome(old(files), files, Staged(names), keyMissing, restore, ArchiveName(vmid, stamp), created)
    {
      hide KindOf, Staged, LastConfig, Images, IsArchive, ArchiveName, DownloadFails, Arrives, SameOutside, VmOutcome;
      var conf, images, failed := Download(names, keyMissing, restore);
      ghost var staged, d := Staged(names), files;
      var outName := ArchiveName(vmid, stamp);
      if failed {
        OutcomeOfFailure(old(files), d, staged, keyMissing, restore, outName, created);
        return;
      }
      ArchiveNameFacts(vmid, stamp);
      StagedKinds(names);
      Package(outName, created);
      ghost var p := files;
      CleanUp(conf, images);
      OutcomeOfSuccess(old(files), d, p, files, staged, keyMissing, restore, outName, created);
    }

    /** One item of the list: the newest snapshot is staged and packaged under its own time; an item without
        snapshots changes nothing. `stamp` renders a time, `keyMissing` and `created` are as above. */
    method BackupItem(snapshots: seq<Snapshot>, keyMissing: bool, restore: nat -> Command, vmid: string,
        stamp: int -> string, created: bool) returns (li: nat)
      requires Valid() && '/' !in vmid && forall t :: '/' !in stamp(t)
      modifies this
      ensures Valid()
      ensures snapshots == [] ==> files == old(files)
      ensures snapshots != [] ==>
        && li < |snapshots|
        && (IsFirstMax(Times(snapshots), li) <==>
            (exists i :: 0 <= i < |snapshots| && snapshots[i].time > 0) || IsMax(Times(snapshots), 0))
        && VmOutcome(old(files), files, Staged(snapshots[li].names), keyMissing, restore,
            ArchiveName(vmid, stamp(snapshots[li].time)), created)
    {
      li := 0;
      if snapshots != [] {
        hide VmOutcome, IsMax, Staged, ArchiveName;
        li := NewestSnapshot(Times(snapshots));
        BackupVm(snapshots[li].names, keyMissing, restore, vmid, stamp(snapshots[li].time), created);
      }
    }
  }

  datatype Snapshot = Snapshot(time: int, names: seq<string>)

  function Times(snapshots: seq<Snapshot>): (r: seq<int>)
    ensures |r| == |snapshots| && forall i :: 0 <= i < |r| ==> r[i] == snapshots[i].time
  {
    seq(|snapshots|, i requires 0 <= i < |snapshots| => snapshots[i].time)
  }

  lemma NothingStaged(files: map<string, Content>, restore: nat -> Command)
    ensures Staged([]) == [] && LastConfig([]) == "" && Images([]) == [] && SameOutside(files, files, [])
    ensures forall key :: !DownloadFails([], key, restore)
  {}

  lemma ArrivalsStep(a: map<string, Content>, b: map<string, Content>, staged: seq<string>, restore: nat -> Command,
        file: string)
    requires forall f :: f in staged ==> (f in a <==> Arrives(staged, restore, f))
    requires SameOutside(b, a, [file]) && (file in b <==> Leaves(restore(|staged|)))
    ensures forall f :: f in staged + [file] ==> (f in b <==> Arrives(staged + [file], restore, f))
  {
    hide Arrives, Leaves;
    forall f | f in staged + [file]
      ensures f in b <==> Arrives(staged + [file], restore, f)
    {
      ArrivesStep(staged, restore, file, f);
      if f != file {
        assert f in staged && f !in [file];
      }
    }
  }
}
