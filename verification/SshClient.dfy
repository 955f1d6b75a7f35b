/** Remote commands of the SSH client: the quoting of paths, checked against a shell tokeniser, and
    the parser of directory listings, checked against the printer it reads. */
module SshClient {
  import opened Options
  import opened Splitting
  import opened Substitution

  // ----- The shell's side: IEEE Std 1003.1-2017, Shell Command Language, sections 2.2 and 2.3 -----

  datatype Mode = Plain | Single | Double

  predicate Blank(c: char) {
    c == ' ' || c == '\t'
  }

  /** Characters that, outside quotes, do something other than stand for themselves. */
  predicate Special(c: char) {
    c in {'|', '&', ';', '<', '>', '(', ')', '$', '`', '*', '?', '[', '#', '~', '=', '%', '!', '{', '}', '\n', '\0'}
  }

  function Grow(cur: Option<string>, c: char): Option<string> {
    Some(if cur.Some? then cur.value + [c] else [c])
  }

  /** The words of a command line. `cur` is the word in progress. `None` as a result means that the line
      needs more of the shell than quote removal and splitting, or is not well-formed. */
  function Words(s: string, mode: Mode, cur: Option<string>): Option<seq<string>>
    decreases |s|
  {
    if s == "" then
      if mode != Plain then None else if cur.Some? then Some([cur.value]) else Some([])
    else
      var c, rest := s[0], s[1..];
      match mode
      case Single =>
        if c == '\'' then Words(rest, Plain, cur)
        else if c == '\0' then None
        else Words(rest, Single, Grow(cur, c))
      case Double =>
        if c == '"' then Words(rest, Plain, cur)
        else if c in {'$', '`', '\0'} then None
        else if c == '\\' && rest != "" && rest[0] == '\n' then Words(rest[1..], Double, cur)
        else if c == '\\' && rest != "" && rest[0] in {'$', '`', '"', '\\'} then
          Words(rest[1..], Double, Grow(cur, rest[0]))
        else Words(rest, Double, Grow(cur, c))
      case Plain =>
        if Blank(c) then
          var more := Words(rest, Plain, None);
          if more.Some? && cur.Some? then Some([cur.value] + more.value) else more
        else if c == '\'' || c == '"' then
          Words(rest, if c == '"' then Double else Single, if cur.Some? then cur else Some(""))
        else if c == '\\' then
          if rest == "" || rest[0] == '\0' then None
          else if rest[0] == '\n' then Words(rest[1..], Plain, cur)
          else Words(rest[1..], Plain, Grow(cur, rest[0]))
        else if Special(c) then None
        else Words(rest, Plain, Grow(cur, c))
  }

  // ----- The client's side -----

  const QUOTE: string := "'"
  const ESCAPED_QUOTE: string := "'\\''"

  function ShellQuote(s: string): string {
    "'" + ReplaceAll(s, QUOTE, ESCAPED_QUOTE) + "'"
  }

  function ListCommand(path: string): string {
    "ls -1Ap -- " + ShellQuote(if path == "" then "/" else path)
  }

  /** `None` is the refusal of an empty path. */
  function MkdirCommand(path: string): Option<string> {
    if path == "" then None else Some("mkdir -- " + ShellQuote(path))
  }

  lemma EscapedQuote(tail: string, w: string)
    ensures Words(ESCAPED_QUOTE + tail, Single, Some(w)) == Words(tail, Single, Some(w + "'"))
  {
    var s := ESCAPED_QUOTE + tail;
    assert s[0] == '\'' && s[1] == '\\' && s[2] == '\'' && s[3] == '\'';
    assert s[1..][0] == s[1] && s[1..][1..] == s[2..] && s[2..][0] == s[2] && s[2..][1..] == s[3..];
    assert s[3..][0] == s[3] && s[3..][1..] == s[4..] == tail;
    assert Words(s, Single, Some(w)) == Words(s[1..], Plain, Some(w));
    assert Words(s[1..], Plain, Some(w)) == Words(s[3..], Plain, Some(w + "'"));
  }

  /** Inside single quotes the escaped text reads as the original one. */
  lemma {:induction false} QuotedBody(s: string, tail: string, w: string)
    ensures Words(ReplaceAll(s, QUOTE, ESCAPED_QUOTE) + "'" + tail, Single, Some(w)) ==
            if '\0' in s then None else Words(tail, Plain, Some(w + s))
    decreases |s|
  {
    var line := ReplaceAll(s, QUOTE, ESCAPED_QUOTE) + "'" + tail;
    if s == "" {
      assert line == "'" + tail && line[1..] == tail && w + s == w;
    } else {
      var rest := ReplaceAll(s[1..], QUOTE, ESCAPED_QUOTE) + "'" + tail;
      assert s == [s[0]] + s[1..];
      assert w + [s[0]] + s[1..] == w + s;
      assert '\0' in s <==> s[0] == '\0' || '\0' in s[1..];
      if s[0] == '\'' {
        assert QUOTE <= s;
        assert line == ESCAPED_QUOTE + rest;
        EscapedQuote(rest, w);
      } else {
        assert line == [s[0]] + rest && line[1..] == rest;
      }
      QuotedBody(s[1..], tail, w + [s[0]]);
    }
  }

  predicate PlainWord(w: string) {
    w != "" && forall i :: 0 <= i < |w| ==> !Blank(w[i]) && !Special(w[i]) && w[i] !in {'\'', '"', '\\'}
  }

  lemma {:induction false} PlainWordRead(w: string, tail: string, cur: string)
    requires forall i :: 0 <= i < |w| ==> !Blank(w[i]) && !Special(w[i]) && w[i] !in {'\'', '"', '\\'}
    ensures Words(w + " " + tail, Plain, Some(cur)) == Words(" " + tail, Plain, Some(cur + w))
    decreases |w|
  {
    if w == "" {
      assert w + " " + tail == " " + tail && cur + w == cur;
    } else {
      assert (w + " " + tail)[1..] == w[1..] + " " + tail;
      assert cur + [w[0]] + w[1..] == cur + w;
      PlainWordRead(w[1..], tail, cur + [w[0]]);
    }
  }

  function Template(words: seq<string>): string {
    if words == [] then "" else words[0] + " " + Template(words[1..])
  }

  /** A template of plain words and one quoted text is read by the shell as those words and that text,
      exactly if the text is free of NUL. */
  lemma {:induction false} QuotedIsOneWord(words: seq<string>, s: string)
    requires forall i :: 0 <= i < |words| ==> PlainWord(words[i])
    ensures Words(Template(words) + ShellQuote(s), Plain, None) == if '\0' in s then None else Some(words + [s])
    decreases |words|
  {
    if words == [] {
      var body := ReplaceAll(s, QUOTE, ESCAPED_QUOTE) + "'";
      assert Template(words) + ShellQuote(s) == "'" + body;
      assert ("'" + body)[1..] == body == body + "";
      QuotedBody(s, "", "");
      assert "" + s == s && words + [s] == [s];
    } else {
      var w := words[0];
      var line := Template(words[1..]) + ShellQuote(s);
      assert Template(words) + ShellQuote(s) == w + " " + line;
      assert PlainWord(w);
      assert (w + " " + line)[1..] == w[1..] + " " + line;
      assert Grow(None, w[0]) == Some([w[0]]);
      assert Words(w + " " + line, Plain, None) == Words(w[1..] + " " + line, Plain, Some([w[0]]));
      PlainWordRead(w[1..], line, [w[0]]);
      assert [w[0]] + w[1..] == w;
      assert (" " + line)[1..] == line;
      QuotedIsOneWord(words[1..], s);
      assert [w] + (words[1..] + [s]) == words + [s];
    }
  }

  lemma TemplateCons(w: string, ws: seq<string>)
    ensures Template([w] + ws) == w + " " + Template(ws)
  {
    assert ([w] + ws)[1..] == ws;
  }

  lemma LsTemplate()
    ensures Template(["ls", "-1Ap", "--"]) == "ls -1Ap -- "
    ensures PlainWord("ls") && PlainWord("-1Ap") && PlainWord("--")
  {
    TemplateCons("--", []);
    TemplateCons("-1Ap", ["--"]);
    TemplateCons("ls", ["-1Ap", "--"]);
    assert Template([]) == "";
    hide Template;
    assert ["--"] + [] == ["--"] && ["-1Ap"] + ["--"] == ["-1Ap", "--"];
    assert ["ls"] + ["-1Ap", "--"] == ["ls", "-1Ap", "--"];
  }

  lemma MkdirTemplate()
    ensures Template(["mkdir", "--"]) == "mkdir -- "
    ensures PlainWord("mkdir") && PlainWord("--")
  {
    TemplateCons("--", []);
    TemplateCons("mkdir", ["--"]);
    assert Template([]) == "";
    hide Template;
    assert ["--"] + [] == ["--"] && ["mkdir"] + ["--"] == ["mkdir", "--"];
  }

  /** The remote listing command reaches `ls` with the path, or `/` for none, as its one operand. */
  lemma ListCommandWords(path: string)
    ensures Words(ListCommand(path), Plain, None) ==
            if '\0' in path then None else Some(["ls", "-1Ap", "--"] + [if path == "" then "/" else path])
  {
    hide Words, ShellQuote, Template, PlainWord;
    LsTemplate();
    QuotedIsOneWord(["ls", "-1Ap", "--"], if path == "" then "/" else path);
  }

  /** The remote command that makes a directory reaches `mkdir` with the path as its one operand. */
  lemma MkdirCommandWords(path: string)
    ensures MkdirCommand(path).None? <==> path == ""
    ensures path != "" ==>
      Words(MkdirCommand(path).value, Plain, None) == if '\0' in path then None else Some(["mkdir", "--"] + [path])
  {
    hide Words, ShellQuote, Template, PlainWord;
    MkdirTemplate();
    QuotedIsOneWord(["mkdir", "--"], path);
  }

  // ----- Directory listings -----

  datatype DirEntry = DirEntry(name: string, isDir: bool)

  function Lines(s: string): seq<string> {
    SplitOn(s, '\n')
  }

  function ParseLine(line: string): seq<DirEntry> {
    if line == "" || line == "/" then []
    else if line[|line| - 1] == '/' then [DirEntry(line[..|line| - 1], true)]
    else [DirEntry(line, false)]
  }

  function ParseLines(lines: seq<string>): seq<DirEntry> {
    if lines == [] then [] else ParseLine(lines[0]) + ParseLines(lines[1..])
  }

  function ParseListing(output: string): seq<DirEntry> {
    ParseLines(Lines(output))
  }

  lemma ParseStep(lines: seq<string>, i: nat)
    requires i < |lines|
    ensures ParseLines(lines[i..]) == ParseLine(lines[i]) + ParseLines(lines[i + 1..])
  {
    assert lines[i..][0] == lines[i] && lines[i..][1..] == lines[i + 1..];
  }

  /** The parser loop of `listDir`. */
  method ListDir(output: string) returns (entries: seq<DirEntry>)
    ensures entries == ParseListing(output)
  {
    hide Lines, ParseLines;
    var lines := Lines(output);
    entries := [];
    assert lines[0..] == lines;
    for i := 0 to |lines|
      invariant entries + ParseLines(lines[i..]) == ParseLines(lines)
    {
      ParseStep(lines, i);
      var name := lines[i];
      if name != "" {
        var e;
        if name[|name| - 1] == '/' {
          e := DirEntry(name[..|name| - 1], true);
          assert e.name == "" <==> name == "/";
        } else {
          e := DirEntry(name, false);
        }
        if e.name != "" {
          entries := entries + [e];
        }
      }
    }
    NothingLeft(lines);
  }

  lemma NothingLeft(lines: seq<string>)
    ensures ParseLines(lines[|lines|..]) == []
  {}

  /** What `ls -1Ap` prints: one name a line, a slash after directories. */
  function Render(entries: seq<DirEntry>): string {
    if entries == [] then "" else RenderName(entries[0]) + "\n" + Render(entries[1..])
  }

  function RenderName(e: DirEntry): string {
    e.name + if e.isDir then "/" else ""
  }

  predicate Printable(e: DirEntry) {
    e.name != "" && '\n' !in e.name && (e.isDir || e.name[|e.name| - 1] != '/')
  }

  lemma {:induction false} ParsedIsPrintable(lines: seq<string>)
    requires forall i :: 0 <= i < |lines| ==> '\n' !in lines[i]
    ensures forall i :: 0 <= i < |ParseLines(lines)| ==> Printable(ParseLines(lines)[i])
  {
    if lines != [] {
      ParsedIsPrintable(lines[1..]);
    }
  }

  lemma ParseRendered(e: DirEntry)
    requires Printable(e)
    ensures ParseLine(RenderName(e)) == [e] && '\n' !in RenderName(e)
  {
    var line := RenderName(e);
    if e.isDir {
      assert line[..|line| - 1] == e.name;
    } else {
      assert line == e.name;
    }
  }

  lemma {:induction false} RenderedReadsBack(entries: seq<DirEntry>)
    requires forall i :: 0 <= i < |entries| ==> Printable(entries[i])
    ensures ParseListing(Render(entries)) == entries
    decreases |entries|
  {
    if entries != [] {
      var e := entries[0];
      assert Printable(e);
      ParseRendered(e);
      hide ParseLine, RenderName, Printable, SplitOn;
      var line := RenderName(e);
      SplitFirst(line, Render(entries[1..]), '\n');
      RenderedReadsBack(entries[1..]);
      assert Render(entries) == line + "\n" + Render(entries[1..]);
      assert ([line] + Lines(Render(entries[1..])))[1..] == Lines(Render(entries[1..]));
      assert [e] + entries[1..] == entries;
    } else {
      assert Lines("") == [""];
      assert ParseLines([""]) == ParseLine("") + ParseLines([""][1..]);
    }
  }

  /** The parser restores a printed list exactly if each name is non-empty, free of newlines and, for a
      file, does not end in a slash. */
  lemma ListingRoundTrip(entries: seq<DirEntry>)
    ensures ParseListing(Render(entries)) == entries <==> forall i :: 0 <= i < |entries| ==> Printable(entries[i])
  {
    SplitHasNoSeparator(Render(entries), '\n');
    ParsedIsPrintable(Lines(Render(entries)));
    if forall i :: 0 <= i < |entries| ==> Printable(entries[i]) {
      RenderedReadsBack(entries);
    }
  }

  /** Whatever the remote side prints, printing the parsed entries and parsing again changes nothing. */
  lemma ListingIsStable(output: string)
    ensures ParseListing(Render(ParseListing(output))) == ParseListing(output)
  {
    SplitHasNoSeparator(output, '\n');
    ParsedIsPrintable(Lines(output));
    RenderedReadsBack(ParseListing(output));
  }
}
