/** Lexical cleaning of paths (`QDir::cleanPath`): a path is a list of components. */
module Paths {
  import opened Splitting

  /** How `QDir::cleanPath` treats `..` above the root: the Qt versions differ, so both are covered. */
  datatype Qt = Qt(keepsUpAboveRoot: bool)

  predicate Up(part: string) {
    part == ".."
  }

  predicate Skipped(part: string) {
    part == "" || part == "."
  }

  function Push(qt: Qt, acc: seq<string>, part: string): seq<string> {
    if Skipped(part) then acc
    else if !Up(part) then acc + [part]
    else if acc != [] && !Up(acc[|acc| - 1]) then acc[..|acc| - 1]
    else if qt.keepsUpAboveRoot then acc + [part]
    else acc
  }

  function Resolve(qt: Qt, acc: seq<string>, parts: seq<string>): seq<string>
    decreases |parts|
  {
    if parts == [] then acc else Resolve(qt, Push(qt, acc, parts[0]), parts[1..])
  }

  function Components(qt: Qt, path: string): seq<string> {
    Resolve(qt, [], SplitOn(path, '/'))
  }

  function Join(comps: seq<string>): string {
    if comps == [] then "" else "/" + comps[0] + Join(comps[1..])
  }

  function Render(comps: seq<string>): string {
    if comps == [] then "/" else Join(comps)
  }

  function CleanPath(qt: Qt, path: string): string {
    Render(Components(qt, path))
  }

  /** The component lists of cleaned paths: `..` occurs only in front, if at all. */
  predicate Normal(qt: Qt, comps: seq<string>) {
    && (forall i :: 0 <= i < |comps| ==> !Skipped(comps[i]) && '/' !in comps[i])
    && (forall i :: 0 <= i < |comps| && Up(comps[i]) ==> qt.keepsUpAboveRoot)
    && (forall i, k :: 0 <= k < i < |comps| && Up(comps[i]) ==> Up(comps[k]))
  }

  lemma PushNormal(qt: Qt, acc: seq<string>, part: string)
    requires Normal(qt, acc) && '/' !in part
    ensures Normal(qt, Push(qt, acc, part))
  {
    var r := Push(qt, acc, part);
    assert |acc| > 0 && Up(acc[|acc| - 1]) ==> forall k :: 0 <= k < |acc| ==> Up(acc[k]);
  }

  lemma {:induction false} ResolveNormal(qt: Qt, acc: seq<string>, parts: seq<string>)
    requires Normal(qt, acc) && forall i :: 0 <= i < |parts| ==> '/' !in parts[i]
    ensures Normal(qt, Resolve(qt, acc, parts))
    decreases |parts|
  {
    if parts != [] {
      PushNormal(qt, acc, parts[0]);
      ResolveNormal(qt, Push(qt, acc, parts[0]), parts[1..]);
    }
  }

  lemma CleanIsNormal(qt: Qt, path: string)
    ensures Normal(qt, Components(qt, path)) && CleanPath(qt, path) == Render(Components(qt, path))
  {
    SplitHasNoSeparator(path, '/');
    ResolveNormal(qt, [], SplitOn(path, '/'));
  }

  lemma {:induction false} SplitJoin(comps: seq<string>)
    requires forall i :: 0 <= i < |comps| ==> '/' !in comps[i]
    ensures SplitOn(Join(comps), '/') == [""] + comps
  {
    if comps == [] {
      assert SplitOn("", '/') == [""];
      assert [""] + comps == [""];
    } else {
      var c, rest := comps[0], Join(comps[1..]);
      SplitJoin(comps[1..]);
      SplitHead(c, rest, comps[1..]);
      hide SplitOn;
      assert Join(comps) == "" + ['/'] + (c + rest);
      SplitFirst("", c + rest, '/');
      assert [c] + comps[1..] == comps;
    }
  }

  lemma SplitHead(c: string, rest: string, more: seq<string>)
    requires '/' !in c && SplitOn(rest, '/') == [""] + more
    ensures SplitOn(c + rest, '/') == [c] + more
  {
    if rest == "" {
      assert more == [];
      SplitNone(c, '/');
      assert c + rest == c;
    } else {
      assert rest[0] == '/' by {
        assert SplitOn(rest, '/')[0] == "";
      }
      assert SplitOn(rest, '/') == [""] + SplitOn(rest[1..], '/');
      assert ([""] + SplitOn(rest[1..], '/'))[1..] == SplitOn(rest[1..], '/') && ([""] + more)[1..] == more;
      assert c + rest == c + ['/'] + rest[1..];
      SplitFirst(c, rest[1..], '/');
    }
  }

  lemma {:induction false} ResolveKeepsNormal(qt: Qt, acc: seq<string>, parts: seq<string>)
    requires Normal(qt, acc + parts)
    ensures Resolve(qt, acc, parts) == acc + parts
    decreases |parts|
  {
    if parts == [] {
      assert acc + parts == acc;
    } else {
      var all := acc + parts;
      assert all[|acc|] == parts[0];
      assert acc != [] ==> all[|acc| - 1] == acc[|acc| - 1];
      assert Push(qt, acc, parts[0]) == acc + [parts[0]];
      assert acc + [parts[0]] + parts[1..] == all;
      ResolveKeepsNormal(qt, acc + [parts[0]], parts[1..]);
    }
  }

  /** A cleaned path is left alone by cleaning, and its components can be read off. */
  lemma CleanRendered(qt: Qt, comps: seq<string>)
    requires Normal(qt, comps)
    ensures Components(qt, Render(comps)) == comps && CleanPath(qt, Render(comps)) == Render(comps)
  {
    if comps == [] {
      assert "/"[1..] == "";
      assert SplitOn("/", '/') == ["", ""];
      assert ["", ""][1..] == [""] && [""][1..] == [];
      assert Resolve(qt, [], ["", ""]) == Resolve(qt, [], [""]) == Resolve(qt, [], []);
    } else {
      SplitJoin(comps);
      assert ([""] + comps)[1..] == comps;
      assert [] + comps == comps;
      ResolveKeepsNormal(qt, [], comps);
    }
  }

  lemma {:induction false} ResolveAppend(qt: Qt, acc: seq<string>, a: seq<string>, b: seq<string>)
    ensures Resolve(qt, acc, a + b) == Resolve(qt, Resolve(qt, acc, a), b)
    decreases |a|
  {
    if a == [] {
      assert a + b == b;
    } else {
      assert (a + b)[1..] == a[1..] + b;
      ResolveAppend(qt, Push(qt, acc, a[0]), a[1..], b);
    }
  }
}
