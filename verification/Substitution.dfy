/** Replacing the mount directory by the generic token and back (`QString::replace` with both
    arguments strings: left to right, occurrences do not overlap, inserted text is not rescanned). */
module Substitution {

  function ReplaceAll<T(==)>(s: seq<T>, before: seq<T>, after: seq<T>): seq<T>
    requires before != []
    decreases |s|
  {
    if s == [] then []
    else if before <= s then after + ReplaceAll(s[|before|..], before, after)
    else [s[0]] + ReplaceAll(s[1..], before, after)
  }

  /** Once `a` has been replaced by `b` in `h`, the text starts with `b[k..]`: the characters of `h`
      spell it, until perhaps an inserted `b` supplies the rest. */
  predicate Spells<T(==)>(h: seq<T>, a: seq<T>, b: seq<T>, k: nat)
    requires a != [] && k <= |b|
    decreases |h|
  {
    k == |b| || (h != [] && if a <= h then b[k..] <= b else h[0] == b[k] && Spells(h[1..], a, b, k + 1))
  }

  /** At some place that the scan for `a` passes over, the replaced text spells `b`. */
  predicate Collides<T(==)>(s: seq<T>, a: seq<T>, b: seq<T>)
    requires a != [] && b != []
    decreases |s|
  {
    s != [] && if a <= s then Collides(s[|a|..], a, b) else Spells(s, a, b, 0) || Collides(s[1..], a, b)
  }

  lemma {:induction false} SpellsIff<T>(h: seq<T>, a: seq<T>, b: seq<T>, k: nat)
    requires a != [] && k <= |b|
    requires k == 0 ==> !(a <= h)
    ensures Spells(h, a, b, k) <==> b[k..] <= ReplaceAll(h, a, b)
    decreases |h|
  {
    if k < |b| && h != [] {
      if a <= h {
        assert ReplaceAll(h, a, b) == b + ReplaceAll(h[|a|..], a, b);
        assert b[k..] <= ReplaceAll(h, a, b) <==> b[k..] <= b;
      } else {
        SpellsIff(h[1..], a, b, k + 1);
        var rest := ReplaceAll(h[1..], a, b);
        assert b[k..] == [b[k]] + b[k + 1..];
        assert [b[k]] + b[k + 1..] <= [h[0]] + rest <==> b[k] == h[0] && b[k + 1..] <= rest by {
          assert ([h[0]] + rest)[1..] == rest && ([b[k]] + b[k + 1..])[1..] == b[k + 1..];
        }
      }
    }
  }

  /** Replacing `a` by `b` and then `b` by `a` restores the text exactly if nothing collides. */
  lemma {:induction false} RoundTripIff<T>(s: seq<T>, a: seq<T>, b: seq<T>)
    requires a != [] && b != []
    ensures ReplaceAll(ReplaceAll(s, a, b), b, a) == s <==> !Collides(s, a, b)
    decreases |s|
  {
    if s != [] {
      var r := ReplaceAll(s, a, b);
      if a <= s {
        var rest := ReplaceAll(s[|a|..], a, b);
        assert r == b + rest && r[|b|..] == rest;
        assert s == a + s[|a|..];
        var back := ReplaceAll(rest, b, a);
        assert ReplaceAll(r, b, a) == a + back;
        assert a + back == a + s[|a|..] <==> back == s[|a|..] by {
          assert (a + back)[|a|..] == back && (a + s[|a|..])[|a|..] == s[|a|..];
        }
        RoundTripIff(s[|a|..], a, b);
      } else {
        SpellsIff(s, a, b, 0);
        assert b[0..] == b;
        var rest := ReplaceAll(s[1..], a, b);
        assert r == [s[0]] + rest && r[1..] == rest;
        if b <= r {
          assert a <= ReplaceAll(r, b, a);
        } else {
          var back := ReplaceAll(rest, b, a);
          assert s == [s[0]] + s[1..];
          assert [s[0]] + back == s <==> back == s[1..] by {
            assert ([s[0]] + back)[1..] == back;
          }
          RoundTripIff(s[1..], a, b);
        }
      }
    }
  }

  /** Every proper suffix of `b` that is also a prefix of `b` has at most `w` elements. */
  ghost predicate BordersAtMost<T>(b: seq<T>, w: nat) {
    forall k :: 0 < k < |b| && b[k..] <= b ==> |b| - k <= w
  }

  ghost predicate Contains<T>(s: seq<T>, u: seq<T>) {
    exists i :: 0 <= i <= |s| && u <= s[i..]
  }

  lemma {:induction false} SpellsPrefix<T>(h: seq<T>, a: seq<T>, b: seq<T>, k: nat, w: nat)
    requires a != [] && k < |b| - w && BordersAtMost(b, w) && Spells(h, a, b, k)
    requires k == 0 ==> !(a <= h)
    ensures b[k..|b| - w] <= h
    decreases |h|
  {
    if k + 1 < |b| - w {
      SpellsPrefix(h[1..], a, b, k + 1, w);
      assert b[k..|b| - w] == [b[k]] + b[k + 1..|b| - w];
      assert h == [h[0]] + h[1..];
    } else {
      assert b[k..|b| - w] == [b[k]];
    }
  }

  lemma SpellsContains<T>(s: seq<T>, a: seq<T>, b: seq<T>, w: nat)
    requires a != [] && w < |b| && BordersAtMost(b, w) && Spells(s, a, b, 0) && !(a <= s)
    ensures Contains(s, b[..|b| - w])
  {
    SpellsPrefix(s, a, b, 0, w);
    assert b[0..|b| - w] == b[..|b| - w] && s[0..] == s;
  }

  lemma ContainsInSuffix<T>(s: seq<T>, n: nat, u: seq<T>)
    requires n <= |s|
    ensures Contains(s[n..], u) ==> Contains(s, u)
  {
    if i :| 0 <= i <= |s[n..]| && u <= s[n..][i..] {
      assert s[n..][i..] == s[n + i..];
    }
  }

  /** If the borders of `b` have at most `w` elements, a text without `b` less its last `w` elements
      cannot collide. */
  lemma {:induction false} NoMarkerNoCollision<T>(s: seq<T>, a: seq<T>, b: seq<T>, w: nat)
    requires a != [] && w < |b| && BordersAtMost(b, w)
    requires !Contains(s, b[..|b| - w])
    ensures !Collides(s, a, b)
    decreases |s|
  {
    if s != [] {
      var step := if a <= s then |a| else 1;
      ContainsInSuffix(s, step, b[..|b| - w]);
      NoMarkerNoCollision(s[step..], a, b, w);
      if !(a <= s) && Spells(s, a, b, 0) {
        SpellsContains(s, a, b, w);
      }
    }
  }

  // ----- What is replaced -----

  /** A text without occurrences stays as it is. */
  lemma {:induction false} NothingToReplace<T>(s: seq<T>, a: seq<T>, b: seq<T>)
    requires a != [] && !Contains(s, a)
    ensures ReplaceAll(s, a, b) == s
    decreases |s|
  {
    if s != [] {
      assert s[0..] == s;
      ContainsInSuffix(s, 1, a);
      NothingToReplace(s[1..], a, b);
      assert s == [s[0]] + s[1..];
    }
  }

  /** The first occurrence is replaced, and the scan goes on behind it. Together with the above this determines the
      function. */
  lemma {:induction false} FirstOccurrence<T>(pre: seq<T>, rest: seq<T>, a: seq<T>, b: seq<T>)
    requires a != [] && forall i :: 0 <= i < |pre| ==> !(a <= (pre + a + rest)[i..])
    ensures ReplaceAll(pre + a + rest, a, b) == pre + b + ReplaceAll(rest, a, b)
    decreases |pre|
  {
    var s := pre + a + rest;
    if pre == [] {
      assert s == a + rest && s[|a|..] == rest;
      assert pre + b + ReplaceAll(rest, a, b) == b + ReplaceAll(rest, a, b);
    } else {
      assert s[0..] == s;
      assert s[1..] == pre[1..] + a + rest;
      forall i | 0 <= i < |pre[1..]|
        ensures !(a <= (pre[1..] + a + rest)[i..])
      {
        assert (pre[1..] + a + rest)[i..] == s[i + 1..];
      }
      FirstOccurrence(pre[1..], rest, a, b);
      assert [s[0]] + (pre[1..] + b + ReplaceAll(rest, a, b)) == pre + b + ReplaceAll(rest, a, b);
    }
  }

  // ----- The token -----

  const TOKEN: string := "%MNTBACKUPDIR%"
  const MARKER: string := "%MNTBACKUPDIR"

  function ConvertPath2Generic(path: string, mountdir: string): string {
    if mountdir == "" then path else ReplaceAll(path, mountdir, TOKEN)
  }

  function ConvertGeneric2Path(path: string, mountdir: string): string {
    ReplaceAll(path, TOKEN, mountdir)
  }

  /** Expanding puts the mount directory where the token stands; generalising puts the token where the mount
      directory stands. Texts without them stay as they are, and without a mount directory nothing is
      generalised. */
  lemma TokenMeans(text: string, rest: string, mountdir: string)
    ensures ConvertGeneric2Path("%MNTBACKUPDIR%" + rest, mountdir) == mountdir + ConvertGeneric2Path(rest, mountdir)
    ensures mountdir != "" ==>
      ConvertPath2Generic(mountdir + rest, mountdir) == "%MNTBACKUPDIR%" + ConvertPath2Generic(rest, mountdir)
    ensures !Contains(text, "%MNTBACKUPDIR%") ==> ConvertGeneric2Path(text, mountdir) == text
    ensures mountdir == "" || !Contains(text, mountdir) ==> ConvertPath2Generic(text, mountdir) == text
  {
    hide ReplaceAll, Contains;
    AtStart(rest, TOKEN, mountdir);
    if mountdir != "" {
      AtStart(rest, mountdir, TOKEN);
    }
    if !Contains(text, TOKEN) {
      NothingToReplace(text, TOKEN, mountdir);
    }
    if mountdir != "" && !Contains(text, mountdir) {
      NothingToReplace(text, mountdir, TOKEN);
    }
  }

  lemma AtStart(rest: string, a: string, b: string)
    requires a != ""
    ensures ReplaceAll(a + rest, a, b) == b + ReplaceAll(rest, a, b)
  {
    assert "" + a + rest == a + rest;
    FirstOccurrence("", rest, a, b);
    assert "" + b + ReplaceAll(rest, a, b) == b + ReplaceAll(rest, a, b);
  }

  lemma TokenBorders()
    ensures BordersAtMost(TOKEN, 1) && TOKEN[..|TOKEN| - 1] == MARKER
  {
    forall k | 0 < k < |TOKEN| && TOKEN[k..] <= TOKEN
      ensures |TOKEN| - k <= 1
    {
      assert TOKEN[k..][0] == TOKEN[k];
    }
  }

  /** A path survives the trip through its generic form exactly if it does not collide; for that it is
      enough that the token without its final character does not occur in it. */
  lemma PathRoundTrip(path: string, mountdir: string)
    requires mountdir != ""
    ensures ConvertGeneric2Path(ConvertPath2Generic(path, mountdir), mountdir) == path
            <==> !Collides(path, mountdir, TOKEN)
    ensures !Contains(path, MARKER) ==> !Collides(path, mountdir, TOKEN)
  {
    RoundTripIff(path, mountdir, TOKEN);
    TokenBorders();
    if !Contains(path, MARKER) {
      NoMarkerNoCollision(path, mountdir, TOKEN, 1);
    }
  }

  /** Without a mount directory only the way back changes anything: it deletes every token. */
  lemma {:induction false} EmptyMountDir(path: string)
    ensures ConvertGeneric2Path(ConvertPath2Generic(path, ""), "") == path <==> !Contains(path, TOKEN)
    decreases |path|
  {
    DeletionShrinks(path);
  }

  lemma {:induction false} DeletionShrinks(s: string)
    ensures |ReplaceAll(s, TOKEN, "")| <= |s|
    ensures ReplaceAll(s, TOKEN, "") == s <==> !Contains(s, TOKEN)
    decreases |s|
  {
    if s == "" {
      assert forall i :: 0 <= i <= |s| ==> s[i..] == "";
    } else if TOKEN <= s {
      assert s[0..] == s;
      DeletionShrinks(s[|TOKEN|..]);
    } else {
      DeletionShrinks(s[1..]);
      assert ([s[0]] + ReplaceAll(s[1..], TOKEN, ""))[1..] == ReplaceAll(s[1..], TOKEN, "");
      assert s == [s[0]] + s[1..];
      if i :| 0 <= i <= |s| && TOKEN <= s[i..] {
        assert i != 0 by { assert s[0..] == s; }
        assert s[1..][i - 1..] == s[i..];
      }
      if i :| 0 <= i <= |s[1..]| && TOKEN <= s[1..][i..] {
        assert s[1..][i..] == s[i + 1..];
      }
    }
  }

  /** A generic text survives expansion and generalisation exactly if it does not collide; for that it
      is enough that the mount directory has no border and does not occur in the text. */
  lemma GenericRoundTrip(text: string, mountdir: string)
    requires mountdir != ""
    ensures ConvertPath2Generic(ConvertGeneric2Path(text, mountdir), mountdir) == text
            <==> !Collides(text, TOKEN, mountdir)
    ensures BordersAtMost(mountdir, 0) && !Contains(text, mountdir) ==> !Collides(text, TOKEN, mountdir)
  {
    RoundTripIff(text, TOKEN, mountdir);
    if BordersAtMost(mountdir, 0) && !Contains(text, mountdir) {
      assert mountdir[..|mountdir| - 0] == mountdir;
      NoMarkerNoCollision(text, TOKEN, mountdir, 0);
    }
  }

  /** `b` less its last element, followed by `a`, spells `b` if that element also starts `b`. */
  lemma {:induction false} PrefixSpells<T>(a: seq<T>, b: seq<T>, k: nat)
    requires a != [] && k < |b| && b[|b| - 1] == b[0]
    requires forall i :: 0 <= i < |b| - 1 ==> b[i] != a[0]
    ensures Spells(b[k..|b| - 1] + a, a, b, k)
    decreases |b| - k
  {
    var h := b[k..|b| - 1] + a;
    if k == |b| - 1 {
      assert h == a;
      assert b[k..] == [b[0]];
    } else {
      assert h[0] == b[k] && h[1..] == b[k + 1..|b| - 1] + a;
      PrefixSpells(a, b, k + 1);
    }
  }

  /** The absence of the full token is not enough: the token less its last character, in front of the
      mount directory, is never restored. */
  lemma MarkerBeforeMountDir(mountdir: string)
    requires mountdir != "" && mountdir[0] == '/'
    ensures ConvertGeneric2Path(ConvertPath2Generic(MARKER + mountdir, mountdir), mountdir) != MARKER + mountdir
    ensures '%' !in mountdir ==> !Contains(MARKER + mountdir, TOKEN)
  {
    var path := MARKER + mountdir;
    PrefixSpells(mountdir, TOKEN, 0);
    assert TOKEN[0..|TOKEN| - 1] == MARKER;
    RoundTripIff(path, mountdir, TOKEN);
    if '%' !in mountdir {
      forall i | 0 <= i <= |path|
        ensures !(TOKEN <= path[i..])
      {
        if i + |TOKEN| <= |path| {
          assert path[i..][13] == path[i + 13] == mountdir[i];
        }
      }
    }
  }

  /** A border of the mount directory can break the way back from a generic text. */
  lemma BorderBreaksGeneric()
    ensures
      var mountdir, text := "/m/m", "/m" + TOKEN;
      && !Contains(text, mountdir)
      && ConvertPath2Generic(ConvertGeneric2Path(text, mountdir), mountdir) != text
  {
    var mountdir, text := "/m/m", "/m" + TOKEN;
    forall i | 0 <= i <= |text|
      ensures !(mountdir <= text[i..])
    {
      if i + 4 <= |text| {
        assert text[i..][2] == text[i + 2];
      }
    }
    assert text[1..] == "m" + TOKEN && text[2..] == TOKEN;
    assert mountdir[2..] <= mountdir;
    assert Spells(text[2..], TOKEN, mountdir, 2);
    assert Spells(text[1..], TOKEN, mountdir, 1);
    assert Spells(text, TOKEN, mountdir, 0);
    RoundTripIff(text, TOKEN, mountdir);
  }
}
