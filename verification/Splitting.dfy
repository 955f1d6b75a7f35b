/** `QString::split` at a single character, empty parts kept. */
module Splitting {

  function SplitOn(s: string, sep: char): (r: seq<string>)
    ensures r != []
  {
    if s == "" then [""]
    else
      var r := SplitOn(s[1..], sep);
      if s[0] == sep then [""] + r else [[s[0]] + r[0]] + r[1..]
  }

  lemma {:induction false} SplitFirst(part: string, rest: string, sep: char)
    requires sep !in part
    ensures SplitOn(part + [sep] + rest, sep) == [part] + SplitOn(rest, sep)
    decreases |part|
  {
    if part == "" {
      assert (part + [sep] + rest)[1..] == rest;
    } else {
      assert (part + [sep] + rest)[1..] == part[1..] + [sep] + rest;
      SplitFirst(part[1..], rest, sep);
      assert [part[0]] + part[1..] == part;
    }
  }

  lemma {:induction false} SplitNone(part: string, sep: char)
    requires sep !in part
    ensures SplitOn(part, sep) == [part]
  {
    if part != "" {
      SplitNone(part[1..], sep);
      assert [part[0]] + part[1..] == part;
    }
  }

  lemma {:induction false} SplitHasNoSeparator(s: string, sep: char)
    ensures forall i :: 0 <= i < |SplitOn(s, sep)| ==> sep !in SplitOn(s, sep)[i]
  {
    if s != "" {
      SplitHasNoSeparator(s[1..], sep);
      var r := SplitOn(s[1..], sep);
      assert sep !in r[0];
    }
  }

  function Cons(c: char, r: seq<string>, sep: char): seq<string>
    requires r != []
  {
    if c == sep then [""] + r else [[c] + r[0]] + r[1..]
  }

  lemma SplitCons(c: char, s: string, sep: char)
    ensures SplitOn([c] + s, sep) == Cons(c, SplitOn(s, sep), sep)
  {
    assert ([c] + s)[1..] == s;
  }

  lemma ConsAppend(c: char, r: seq<string>, t: seq<string>, sep: char)
    requires r != []
    ensures Cons(c, r + t, sep) == Cons(c, r, sep) + t
  {
    assert (r + t)[0] == r[0] && (r + t)[1..] == r[1..] + t;
  }

  lemma {:induction false} SplitAppend(a: string, b: string, sep: char)
    ensures SplitOn(a + [sep] + b, sep) == SplitOn(a, sep) + SplitOn(b, sep)
  {
    if a == "" {
      assert a + [sep] + b == [sep] + b;
      SplitCons(sep, b, sep);
    } else {
      hide SplitOn, Cons;
      var c, rest := a[0], a[1..];
      assert a == [c] + rest && a + [sep] + b == [c] + (rest + [sep] + b);
      SplitAppend(rest, b, sep);
      SplitCons(c, rest, sep);
      SplitCons(c, rest + [sep] + b, sep);
      ConsAppend(c, SplitOn(rest, sep), SplitOn(b, sep), sep);
    }
  }
}
