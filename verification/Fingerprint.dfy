/** Certificate fingerprints of the PBS client: normalisation and the constant-time comparison. */
module Fingerprints {

  type QChar = bv16

  /** Qt's Unicode classification, of which only the part below matters. */
  datatype CharTable = CharTable(letterOrNumber: QChar -> bool, upper: QChar -> QChar)

  const COLON: QChar := 58

  /** Hexadecimal digits count as letters or numbers, upper-casing maps them to upper-case digits, and
      a colon is neither letter nor number. */
  ghost predicate KnowsHex(t: CharTable) {
    && !t.letterOrNumber(COLON)
    && forall d, lower :: 0 <= d < 16 ==>
      t.letterOrNumber(HexDigit(d, lower)) && t.upper(HexDigit(d, lower)) == HexDigit(d, false)
  }

  function Normalized(t: CharTable, fp: seq<QChar>): seq<QChar> {
    if fp == [] then []
    else (if t.letterOrNumber(fp[0]) then [t.upper(fp[0])] else []) + Normalized(t, fp[1..])
  }

  method NormalizeFingerprint(t: CharTable, fp: seq<QChar>) returns (out: seq<QChar>)
    ensures out == Normalized(t, fp)
  {
    out := [];
    for i := 0 to |fp|
      invariant out + Normalized(t, fp[i..]) == Normalized(t, fp)
    {
      assert fp[i..][0] == fp[i] && fp[i..][1..] == fp[i + 1..];
      if t.letterOrNumber(fp[i]) {
        out := out + [t.upper(fp[i])];
      }
    }
  }

  function Accumulate(diff: QChar, x: QChar, y: QChar): QChar {
    diff | (x ^ y)
  }

  lemma AccumulateZero(diff: QChar, x: QChar, y: QChar)
    ensures Accumulate(diff, x, y) == 0 <==> diff == 0 && x == y
  {
    XorZero(x, y);
    OrZero(diff, x ^ y);
  }

  lemma XorZero(x: QChar, y: QChar)
    ensures x ^ y == 0 <==> x == y
  {}

  lemma OrZero(x: QChar, y: QChar)
    ensures x | y == 0 <==> x == 0 && y == 0
  {}

  /** The OR of the XORs is zero exactly if the normalised fingerprints agree; empty ones never match. */
  method FingerprintMatches(t: CharTable, a: seq<QChar>, b: seq<QChar>) returns (r: bool)
    ensures r <==> Normalized(t, a) == Normalized(t, b) != []
  {
    hide Accumulate, Normalized;
    var na := NormalizeFingerprint(t, a);
    var nb := NormalizeFingerprint(t, b);
    if na == [] || |na| != |nb| {
      return false;
    }
    var diff: QChar := 0;
    for i := 0 to |na|
      invariant diff == 0 <==> na[..i] == nb[..i]
    {
      AccumulateZero(diff, na[i], nb[i]);
      assert na[..i + 1] == na[..i] + [na[i]] && nb[..i + 1] == nb[..i] + [nb[i]];
      diff := Accumulate(diff, na[i], nb[i]);
    }
    assert na[..|na|] == na && nb[..|na|] == nb;
    return diff == 0;
  }

  // ----- Formatted digests -----

  type Byte = x: int | 0 <= x < 256

  function HexDigit(d: int, lower: bool): QChar
    requires 0 <= d < 16
  {
    match d
    case 0 => 48 case 1 => 49 case 2 => 50 case 3 => 51 case 4 => 52
    case 5 => 53 case 6 => 54 case 7 => 55 case 8 => 56 case 9 => 57
    case 10 => if lower then 97 else 65
    case 11 => if lower then 98 else 66
    case 12 => if lower then 99 else 67
    case 13 => if lower then 100 else 68
    case 14 => if lower then 101 else 69
    case _ => if lower then 102 else 70
  }

  /** `fingerprintOf` is `Format(digest, [COLON], false)`; other tools write other styles. */
  function Format(digest: seq<Byte>, sep: seq<QChar>, lower: bool): seq<QChar> {
    if digest == [] then []
    else
      [HexDigit(digest[0] / 16, lower), HexDigit(digest[0] % 16, lower)]
      + (if |digest| == 1 then [] else sep) + Format(digest[1..], sep, lower)
  }

  lemma {:induction false} NormalizedAppend(t: CharTable, a: seq<QChar>, b: seq<QChar>)
    ensures Normalized(t, a + b) == Normalized(t, a) + Normalized(t, b)
  {
    if a == [] {
      assert a + b == b;
    } else {
      assert (a + b)[1..] == a[1..] + b;
      NormalizedAppend(t, a[1..], b);
    }
  }

  /** No character of the separator is a letter or a number, as with a colon. */
  ghost predicate Separates(t: CharTable, sep: seq<QChar>) {
    forall i :: 0 <= i < |sep| ==> !t.letterOrNumber(sep[i])
  }

  /** Separators vanish, and a character that is kept becomes its upper-case form. With `NormalizedAppend` this
      determines the normal form. */
  lemma {:induction false} SeparatorsVanish(t: CharTable, sep: seq<QChar>)
    requires Separates(t, sep)
    ensures Normalized(t, sep) == []
    ensures forall c :: t.letterOrNumber(c) ==> Normalized(t, [c]) == [t.upper(c)]
  {
    if sep != [] {
      SeparatorsVanish(t, sep[1..]);
    }
    forall c | t.letterOrNumber(c)
      ensures Normalized(t, [c]) == [t.upper(c)]
    {
      assert [c][1..] == [];
    }
  }

  lemma NormalizedTwo(t: CharTable, x: QChar, y: QChar)
    requires t.letterOrNumber(x) && t.letterOrNumber(y)
    ensures Normalized(t, [x, y]) == [t.upper(x), t.upper(y)]
  {
    assert [x, y][1..] == [y] && [y][1..] == [];
    assert Normalized(t, [y]) == [t.upper(y)] + Normalized(t, []);
  }

  /** Normalising any style of a digest gives its upper-case hexadecimal digits without separators. */
  lemma {:induction false} NormalizedFormat(t: CharTable, digest: seq<Byte>, sep: seq<QChar>, lower: bool)
    requires KnowsHex(t) && Separates(t, sep)
    ensures Normalized(t, Format(digest, sep, lower)) == Format(digest, [], false)
  {
    if digest != [] {
      var h, l := digest[0] / 16, digest[0] % 16;
      var pair, gap := [HexDigit(h, lower), HexDigit(l, lower)], if |digest| == 1 then [] else sep;
      NormalizedAppend(t, pair + gap, Format(digest[1..], sep, lower));
      NormalizedAppend(t, pair, gap);
      NormalizedTwo(t, HexDigit(h, lower), HexDigit(l, lower));
      SeparatorsVanish(t, gap);
      NormalizedFormat(t, digest[1..], sep, lower);
    }
  }

  lemma HexInjective(d: int, e: int)
    requires 0 <= d < 16 && 0 <= e < 16 && HexDigit(d, false) == HexDigit(e, false)
    ensures d == e
  {}

  lemma {:induction false} FormatInjective(a: seq<Byte>, b: seq<Byte>)
    requires Format(a, [], false) == Format(b, [], false)
    ensures a == b
  {
    if a != [] && b != [] {
      var fa, fb := Format(a, [], false), Format(b, [], false);
      assert fa[0] == fb[0] && fa[1] == fb[1];
      HexInjective(a[0] / 16, b[0] / 16);
      HexInjective(a[0] % 16, b[0] % 16);
      assert fa[2..] == Format(a[1..], [], false) && fb[2..] == Format(b[1..], [], false);
      FormatInjective(a[1..], b[1..]);
      assert a == [a[0]] + a[1..] && b == [b[0]] + b[1..];
    }
  }

  lemma ColonSeparates(t: CharTable)
    requires KnowsHex(t)
    ensures Separates(t, []) && Separates(t, [COLON])
  {}

  /** Two digests, each in any style of letter case and separators, match exactly if their bytes are
      equal and there are any. */
  lemma DigestsMatch(t: CharTable, a: seq<Byte>, sepA: seq<QChar>, lowerA: bool, b: seq<Byte>, sepB: seq<QChar>,
        lowerB: bool)
    requires KnowsHex(t) && Separates(t, sepA) && Separates(t, sepB)
    ensures
      var na, nb := Normalized(t, Format(a, sepA, lowerA)), Normalized(t, Format(b, sepB, lowerB));
      na == nb != [] <==> a == b != []
  {
    NormalizedFormat(t, a, sepA, lowerA);
    NormalizedFormat(t, b, sepB, lowerB);
    if Format(a, [], false) == Format(b, [], false) {
      FormatInjective(a, b);
    }
  }
}
