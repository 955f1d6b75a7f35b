/** Confinement of script paths to the configured scripts directory. The file system is a function from
    paths to canonical paths; path cleaning is lexical. */
module Confinement {
  import opened Options
  import opened Paths
  import opened Splitting

  // ----- Containment -----

  /** The test of the program: equal to the base, or starting with the base and a slash. */
  predicate Inside(base: string, path: string) {
    path == base || base + "/" <= path
  }

  lemma HeadsAgree(b: string, x: string, r: string, y: string)
    requires '/' !in b && '/' !in r && x != "" && x[0] == '/' && y != "" && y[0] == '/'
    ensures b + x <= r + y <==> b == r && x <= y
  {
    if b + x <= r + y {
      var s, t := b + x, r + y;
      assert forall i :: 0 <= i < |s| ==> s[i] == t[i];
      assert s[|b|] == '/' && t[|r|] == '/';
      assert |b| == |r|;
      assert b == s[..|b|] && r == t[..|r|] && s[..|b|] == t[..|b|];
      assert x == s[|b|..] && y == t[|r|..];
    }
    if b == r && x <= y {
      assert r + y == (b + x) + y[|x|..];
    }
  }

  lemma {:induction false} JoinPrefix(b: seq<string>, r: seq<string>)
    requires (forall i :: 0 <= i < |b| ==> '/' !in b[i]) && forall i :: 0 <= i < |r| ==> '/' !in r[i]
    requires forall i :: 0 <= i < |b| ==> b[i] != ""
    ensures Join(b) + "/" <= Join(r) + "/" <==> b <= r
  {
    if b == [] {
      assert Join(b) + "/" == "/";
      assert (Join(r) + "/")[0] == '/';
    } else if r == [] {
      assert Join(r) + "/" == "/";
      assert |Join(b) + "/"| > 1;
    } else {
      var x, y := Join(b[1..]) + "/", Join(r[1..]) + "/";
      assert Join(b) + "/" == "/" + (b[0] + x) && Join(r) + "/" == "/" + (r[0] + y);
      assert "/" + (b[0] + x) <= "/" + (r[0] + y) <==> b[0] + x <= r[0] + y by {
        assert ("/" + (b[0] + x))[1..] == b[0] + x && ("/" + (r[0] + y))[1..] == r[0] + y;
      }
      HeadsAgree(b[0], x, r[0], y);
      JoinPrefix(b[1..], r[1..]);
      assert b == [b[0]] + b[1..] && r == [r[0]] + r[1..];
      assert b <= r <==> b[0] == r[0] && b[1..] <= r[1..];
    }
  }

  /** On cleaned paths the test means that the base's components are the first ones of the path's, so a
      sibling whose name merely starts alike is outside. The base `/` is the exception: it contains only
      itself. */
  lemma InsideIsPrefix(qt: Qt, base: seq<string>, path: seq<string>)
    requires Normal(qt, base) && Normal(qt, path)
    ensures Inside(Render(base), Render(path)) <==> if base == [] then path == [] else base <= path
  {
    if base == [] {
      if path != [] {
        assert Render(path)[0] == '/' && Render(path)[1..] == path[0] + Join(path[1..]);
        assert Render(path)[1] == path[0][0] != '/';
        assert |"/" + "/"| == 2 && ("/" + "/")[1] == '/';
      }
    } else {
      JoinPrefix(base, path);
      var b, p := Join(base), Render(path);
      if path == [] {
        assert !(base <= path);
        assert |b| >= 2;
      } else {
        assert Inside(b, p) <==> b + "/" <= p + "/" by {
          if b + "/" <= p + "/" {
            if |b| == |p| {
              assert b == (b + "/")[..|b|] && p == (p + "/")[..|b|];
            } else {
              assert (p + "/")[..|b| + 1] == p[..|b| + 1];
            }
          }
          if b + "/" <= p {
            assert (p + "/")[..|b| + 1] == p[..|b| + 1] == b + "/";
          }
        }
      }
    }
  }

  // ----- The function -----

  /** `QFileInfo::canonicalFilePath`: `None` if nothing exists there. */
  type FileSystem = string -> Option<string>

  /** Canonical paths are absolute, cleaned, and canonical themselves. */
  ghost predicate Sound(qt: Qt, fs: FileSystem) {
    forall p :: fs(p).Some? ==>
      Normal(qt, Components(qt, fs(p).value)) && fs(p).value == CleanPath(qt, fs(p).value) && fs(fs(p).value) == fs(p)
  }

  /** The scripts directory as an absolute path; a relative one is resolved in the working directory. */
  function LexBase(qt: Qt, cwd: string, scriptsDir: string): string
    requires scriptsDir != ""
  {
    CleanPath(qt, if scriptsDir[0] == '/' then scriptsDir else cwd + "/" + scriptsDir)
  }

  function AbsoluteInput(qt: Qt, cwd: string, scriptsDir: string, input: string): string
    requires input != "" && scriptsDir != ""
  {
    if input[0] == '/' then CleanPath(qt, input) else CleanPath(qt, LexBase(qt, cwd, scriptsDir) + "/" + input)
  }

  /** The base that the result is compared with. */
  function BaseUsed(qt: Qt, fs: FileSystem, cwd: string, scriptsDir: string, input: string): string
    requires input != "" && scriptsDir != ""
  {
    var lex := LexBase(qt, cwd, scriptsDir);
    if fs(AbsoluteInput(qt, cwd, scriptsDir, input)).Some? && fs(lex).Some? then fs(lex).value else lex
  }

  /** `confineToScriptsDir`. Qt counts a path that starts with a colon as absolute: it names a resource, which
      lies in no directory. */
  function Confine(qt: Qt, fs: FileSystem, cwd: string, scriptsDir: string, input: string): string {
    if input == "" || scriptsDir == "" || input[0] == ':' then ""
    else
      var lexBase := LexBase(qt, cwd, scriptsDir);
      var absInput := AbsoluteInput(qt, cwd, scriptsDir, input);
      match fs(absInput)
      case Some(target) =>
        var base := match fs(lexBase) case Some(b) => b case None => lexBase;
        if Inside(base, target) then target else ""
      case None =>
        if Inside(lexBase, absInput) then absInput else ""
  }

  /** A result is a cleaned path whose components extend those of the base used, except that the base `/`
      gives only `/`; and confining it again returns it. */
  lemma ConfinedIsInside(qt: Qt, fs: FileSystem, cwd: string, scriptsDir: string, input: string)
    requires Sound(qt, fs) && Confine(qt, fs, cwd, scriptsDir, input) != ""
    ensures
      var r := Confine(qt, fs, cwd, scriptsDir, input);
      var base := Components(qt, BaseUsed(qt, fs, cwd, scriptsDir, input));
      && r == Render(Components(qt, r)) && Normal(qt, Components(qt, r))
      && (if base == [] then r == "/" else base <= Components(qt, r))
      && Confine(qt, fs, cwd, scriptsDir, r) == r
  {
    var r := Confine(qt, fs, cwd, scriptsDir, input);
    var absInput, lex := AbsoluteInput(qt, cwd, scriptsDir, input), LexBase(qt, cwd, scriptsDir);
    var base := BaseUsed(qt, fs, cwd, scriptsDir, input);
    AbsoluteIsClean(qt, cwd, scriptsDir, input);
    CleanTwice(qt, if scriptsDir[0] == '/' then scriptsDir else cwd + "/" + scriptsDir);
    assert fs(absInput).Some? ==> fs(fs(absInput).value) == fs(absInput);
    assert fs(lex).Some? ==> fs(lex).value == CleanPath(qt, fs(lex).value);
    assert r == CleanPath(qt, r) && Normal(qt, Components(qt, r));
    assert base == CleanPath(qt, base) && Normal(qt, Components(qt, base));
    InsideIsPrefix(qt, Components(qt, base), Components(qt, r));
    assert r[0] == '/';
    assert AbsoluteInput(qt, cwd, scriptsDir, r) == r;
  }

  /** Containment on component lists; the base `/` contains only itself. */
  predicate Covers(base: seq<string>, path: seq<string>) {
    if base == [] then path == [] else base <= path
  }

  /** When there is a result, and which. A path that exists is judged by where it really leads: its canonical path
      must lie in the canonical base (the lexical one if the base does not exist), and is the result. A path that does
      not exist is judged as written. So a symbolic link cannot lead outside. */
  lemma ConfineExactly(qt: Qt, fs: FileSystem, cwd: string, scriptsDir: string, input: string)
    requires Sound(qt, fs) && input != "" && scriptsDir != "" && input[0] != ':'
    ensures
      var r, path := Confine(qt, fs, cwd, scriptsDir, input), AbsoluteInput(qt, cwd, scriptsDir, input);
      var lex := LexBase(qt, cwd, scriptsDir);
      if fs(path).Some? then
        var target := fs(path).value;
        var base := if fs(lex).Some? then fs(lex).value else lex;
        && (r != "" <==> Covers(Components(qt, base), Components(qt, target)))
        && (r != "" ==> r == target && fs(r) == Some(r))
      else
        && (r != "" <==> Covers(Components(qt, lex), Components(qt, path)))
        && (r != "" ==> r == path)
  {
    var path, lex := AbsoluteInput(qt, cwd, scriptsDir, input), LexBase(qt, cwd, scriptsDir);
    AbsoluteIsClean(qt, cwd, scriptsDir, input);
    CleanTwice(qt, if scriptsDir[0] == '/' then scriptsDir else cwd + "/" + scriptsDir);
    if fs(path).Some? {
      var target, base := fs(path).value, if fs(lex).Some? then fs(lex).value else lex;
      assert fs(target) == fs(path);
      assert base == CleanPath(qt, base) && Normal(qt, Components(qt, base));
      InsideIsPrefix(qt, Components(qt, base), Components(qt, target));
      assert Render(Components(qt, target)) != "";
    } else {
      InsideIsPrefix(qt, Components(qt, lex), Components(qt, path));
    }
  }

  lemma NoConfinement(qt: Qt, fs: FileSystem, cwd: string, scriptsDir: string, input: string)
    requires input == "" || scriptsDir == "" || input[0] == ':'
    ensures Confine(qt, fs, cwd, scriptsDir, input) == ""
  {}

  /** Relative paths are resolved part by part: the scripts directory from the working directory, the input from the
      scripts directory. */
  lemma PathsResolve(qt: Qt, cwd: string, scriptsDir: string, input: string)
    requires input != "" && scriptsDir != ""
    ensures
      var lex := Components(qt, LexBase(qt, cwd, scriptsDir));
      && Normal(qt, lex)
      && lex == (if scriptsDir[0] == '/' then Components(qt, scriptsDir)
                 else Resolve(qt, Components(qt, cwd), SplitOn(scriptsDir, '/')))
      && Components(qt, AbsoluteInput(qt, cwd, scriptsDir, input)) ==
         if input[0] == '/' then Components(qt, input) else Resolve(qt, lex, SplitOn(input, '/'))
  {
    var lex := LexBase(qt, cwd, scriptsDir);
    JoinResolves(qt, cwd, scriptsDir);
    JoinResolves(qt, lex, input);
    CleanTwice(qt, if scriptsDir[0] == '/' then scriptsDir else cwd + "/" + scriptsDir);
    CleanKeeps(qt, if scriptsDir[0] == '/' then scriptsDir else cwd + "/" + scriptsDir);
    CleanKeeps(qt, if input[0] == '/' then input else lex + "/" + input);
  }

  lemma JoinResolves(qt: Qt, a: string, b: string)
    ensures Components(qt, a + "/" + b) == Resolve(qt, Components(qt, a), SplitOn(b, '/'))
  {
    assert a + "/" + b == a + ['/'] + b;
    SplitAppend(a, b, '/');
    ResolveAppend(qt, [], SplitOn(a, '/'), SplitOn(b, '/'));
  }

  lemma CleanKeeps(qt: Qt, path: string)
    ensures Components(qt, CleanPath(qt, path)) == Components(qt, path)
  {
    CleanIsNormal(qt, path);
    CleanRendered(qt, Components(qt, path));
  }

  predicate PlainName(name: string) {
    '/' !in name && !Skipped(name) && !Up(name)
  }

  lemma ResolveName(qt: Qt, acc: seq<string>, name: string)
    requires PlainName(name)
    ensures Resolve(qt, acc, SplitOn(name, '/')) == acc + [name]
  {
    SplitNone(name, '/');
    assert [name][1..] == [];
    assert Resolve(qt, acc, [name]) == Resolve(qt, acc + [name], []);
  }

  lemma ResolveUpName(qt: Qt, acc: seq<string>, name: string)
    requires PlainName(name) && acc != [] && !Up(acc[|acc| - 1])
    ensures Resolve(qt, acc, SplitOn("../" + name, '/')) == acc[..|acc| - 1] + [name]
  {
    assert "../" + name == ".." + ['/'] + name;
    SplitFirst("..", name, '/');
    var parts := SplitOn(name, '/');
    assert ([".."] + parts)[1..] == parts;
    assert Push(qt, acc, "..") == acc[..|acc| - 1];
    ResolveName(qt, acc[..|acc| - 1], name);
  }

  /** A bare name that does not exist yet is the file of that name in the scripts directory, */
  lemma BareName(qt: Qt, fs: FileSystem, cwd: string, scriptsDir: string, name: string)
    requires Sound(qt, fs) && scriptsDir != "" && PlainName(name) && name[0] != ':'
    requires fs(AbsoluteInput(qt, cwd, scriptsDir, name)).None?
    ensures
      var lex := Components(qt, LexBase(qt, cwd, scriptsDir));
      lex != [] ==> Confine(qt, fs, cwd, scriptsDir, name) == Render(lex + [name])
  {
    hide Confine, AbsoluteInput, LexBase, Components, Resolve;
    var lex := Components(qt, LexBase(qt, cwd, scriptsDir));
    PathsResolve(qt, cwd, scriptsDir, name);
    ResolveName(qt, lex, name);
    AbsoluteIsClean(qt, cwd, scriptsDir, name);
    ConfineExactly(qt, fs, cwd, scriptsDir, name);
  }

  /** and climbing out of that directory is refused. */
  lemma ClimbingOut(qt: Qt, fs: FileSystem, cwd: string, scriptsDir: string, name: string)
    requires Sound(qt, fs) && scriptsDir != "" && PlainName(name)
    requires fs(AbsoluteInput(qt, cwd, scriptsDir, "../" + name)).None?
    ensures
      var lex := Components(qt, LexBase(qt, cwd, scriptsDir));
      lex != [] && !Up(lex[|lex| - 1]) && lex[|lex| - 1] != name ==>
        Confine(qt, fs, cwd, scriptsDir, "../" + name) == ""
  {
    hide Confine, AbsoluteInput, LexBase, Components, Resolve;
    var lex := Components(qt, LexBase(qt, cwd, scriptsDir));
    if lex != [] && !Up(lex[|lex| - 1]) && lex[|lex| - 1] != name {
      PathsResolve(qt, cwd, scriptsDir, "../" + name);
      ResolveUpName(qt, lex, name);
      assert (lex[..|lex| - 1] + [name])[|lex| - 1] == name;
      ConfineExactly(qt, fs, cwd, scriptsDir, "../" + name);
    }
  }

  lemma CleanTwice(qt: Qt, path: string)
    ensures CleanPath(qt, CleanPath(qt, path)) == CleanPath(qt, path)
    ensures Normal(qt, Components(qt, CleanPath(qt, path)))
  {
    CleanIsNormal(qt, path);
    CleanRendered(qt, Components(qt, path));
  }

  lemma AbsoluteIsClean(qt: Qt, cwd: string, scriptsDir: string, input: string)
    requires input != "" && scriptsDir != ""
    ensures var a := AbsoluteInput(qt, cwd, scriptsDir, input); a == CleanPath(qt, a) && Normal(qt, Components(qt, a))
  {
    if input[0] == '/' {
      CleanTwice(qt, input);
    } else {
      CleanTwice(qt, LexBase(qt, cwd, scriptsDir) + "/" + input);
    }
  }
}
