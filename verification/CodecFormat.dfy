/** The byte format of a job, as one concatenation of its fields in the order in which they are streamed. */
module CodecFormat {
  import opened Jobs
  import opened Codec

  function Num(n: Int32): seq<Byte> {
    PutI32(n, [])
  }

  function Flag(b: bool): seq<Byte> {
    PutBool(b, [])
  }

  function PairBytes(ps: seq<(QStr, QStr)>): seq<Byte>
    requires PairsFit(ps)
  {
    if ps == [] then [] else TextBytes(ps[0].0) + TextBytes(ps[0].1) + PairBytes(ps[1..])
  }

  function ListBytes(ts: seq<QStr>): seq<Byte>
    requires TextsFit(ts)
  {
    if ts == [] then [] else TextBytes(ts[0]) + ListBytes(ts[1..])
  }

  function TargetBytes(ts: seq<WireTarget>): seq<Byte>
    requires TargetsFit(ts)
  {
    if ts == [] then []
    else TextBytes(ts[0].server) + Num(|ts[0].dirs|) + PairBytes(ts[0].dirs) + TargetBytes(ts[1..])
  }

  // ----- The primitives -----

  /** What bytes mean as a big-endian number. */
  function Value(bytes: seq<Byte>): int {
    if bytes == [] then 0
    else
      var n := |bytes| - 1;
      0x100 * Value(bytes[..n]) + bytes[n] as int
  }

  lemma ValueAppend(bytes: seq<Byte>, b: Byte)
    ensures Value(bytes + [b]) == 0x100 * Value(bytes) + b as int
  {
    assert (bytes + [b])[..|bytes|] == bytes;
  }

  lemma Value2(a: Byte, b: Byte)
    ensures Value([a, b]) == 0x100 * a as int + b as int
  {
    assert [a, b][..1] == [a] && [a][..0] == [];
    assert Value([a]) == 0x100 * Value([]) + a as int;
  }

  lemma ValueOfWord(n: U32)
    ensures Value(Be32(n)) == n
  {
    var high: Byte, low: Byte := n / 0x100_0000, n / 0x1_0000 % 0x100;
    var third: Byte, last: Byte := n / 0x100 % 0x100, n % 0x100;
    Value2(high, low);
    assert [high, low, third] == [high, low] + [third];
    ValueAppend([high, low], third);
    assert Be32(n) == [high, low, third] + [last];
    ValueAppend([high, low, third], last);
    assert n / 0x1_0000 == 0x100 * (n / 0x100_0000) + n / 0x1_0000 % 0x100;
    assert n / 0x100 == 0x100 * (n / 0x1_0000) + n / 0x100 % 0x100;
    assert n == 0x100 * (n / 0x100) + n % 0x100;
  }

  /** Numbers take four bytes, big-endian, negative ones in two's complement; flags are one byte; a null string is
      the number -1. */
  lemma Primitives(n: Int32)
    ensures |Num(n)| == 4 && Value(Num(n)) == if n < 0 then n + 0x1_0000_0000 else n
    ensures 0 <= n < 256 ==> Num(n) == [0, 0, 0, n]
    ensures Num(-1) == [255, 255, 255, 255] == TextBytes(Null)
    ensures Flag(true) == [1] && Flag(false) == [0]
  {
    ValueOfWord(Unsigned(n));
    assert Num(n) == Be32(Unsigned(n));
  }

  /** A string is its byte count and then its UTF-16 units, each big-endian. */
  lemma TextFormat(u: Text, i: nat)
    requires TextFits(Chars(u)) && i < |u|
    ensures
      var b := TextBytes(Chars(u));
      && |b| == 4 + 2 * |u| && Value(b[..4]) == 2 * |u|
      && Value(b[4 + 2 * i..6 + 2 * i]) == u[i]
  {
    var b := TextBytes(Chars(u));
    assert b[..4] == Be32(2 * |u|);
    ValueOfWord(2 * |u|);
    UnitAt(u, i);
    assert b[4 + 2 * i..6 + 2 * i] == UnitBytes(u)[2 * i..2 * i + 2];
  }

  lemma {:induction false} UnitAt(u: Text, i: nat)
    requires i < |u|
    ensures Value(UnitBytes(u)[2 * i..2 * i + 2]) == u[i]
  {
    var high: Byte, low: Byte := u[0] / 0x100, u[0] % 0x100;
    assert UnitBytes(u) == [high, low] + UnitBytes(u[1..]);
    if i == 0 {
      assert UnitBytes(u)[0..2] == [high, low];
      Value2(high, low);
    } else {
      UnitAt(u[1..], i - 1);
      assert UnitBytes(u)[2 * i..2 * i + 2] == UnitBytes(u[1..])[2 * i - 2..2 * i];
    }
  }

  // ----- The fields -----

  lemma {:induction false} PairsFormat(ps: seq<(QStr, QStr)>, tail: seq<Byte>)
    requires PairsFit(ps)
    ensures PutPairs(ps, tail) == PairBytes(ps) + tail
  {
    if ps != [] {
      PairsFormat(ps[1..], tail);
      Regroup3(TextBytes(ps[0].0), TextBytes(ps[0].1), PairBytes(ps[1..]), tail);
    }
  }

  lemma Regroup3(a: seq<Byte>, b: seq<Byte>, c: seq<Byte>, d: seq<Byte>)
    ensures a + (b + (c + d)) == a + b + c + d
  {}

  lemma DirsFormat(ps: seq<(QStr, QStr)>, tail: seq<Byte>)
    requires PairsFit(ps)
    ensures PutDirs(ps, tail) == Num(|ps|) + (PairBytes(ps) + tail)
  {
    PairsFormat(ps, tail);
    NumFirst(|ps|, PairBytes(ps) + tail);
  }

  lemma NumFirst(n: Int32, tail: seq<Byte>)
    ensures PutI32(n, tail) == Num(n) + tail
  {}

  lemma FlagFirst(b: bool, tail: seq<Byte>)
    ensures PutBool(b, tail) == Flag(b) + tail
  {}

  lemma {:induction false} ListFormat(ts: seq<QStr>, tail: seq<Byte>)
    requires TextsFit(ts)
    ensures PutTexts(ts, tail) == ListBytes(ts) + tail
  {
    if ts != [] {
      ListFormat(ts[1..], tail);
      Regroup3(TextBytes(ts[0]), ListBytes(ts[1..]), tail, []);
    } else {
      assert [] + tail == tail;
    }
  }

  lemma {:induction false} TargetsFormat(ts: seq<WireTarget>, tail: seq<Byte>)
    requires TargetsFit(ts)
    ensures PutTargets(ts, tail) == TargetBytes(ts) + tail
  {
    if ts == [] {
      assert [] + tail == tail;
    } else {
      var rest := TargetBytes(ts[1..]);
      TargetsFormat(ts[1..], tail);
      hide TextBytes, PairBytes, Num, PutDirs;
      DirsFormat(ts[0].dirs, rest + tail);
      Regroup4(TextBytes(ts[0].server), Num(|ts[0].dirs|), PairBytes(ts[0].dirs), rest, tail);
    }
  }

  lemma Regroup4(a: seq<Byte>, b: seq<Byte>, c: seq<Byte>, d: seq<Byte>, e: seq<Byte>)
    ensures a + (b + (c + (d + e))) == a + b + c + d + e
  {}

  /** `parts` one after the other, and `tail`. */
  function Concat(parts: seq<seq<Byte>>, tail: seq<Byte>): seq<Byte> {
    if parts == [] then tail else parts[0] + Concat(parts[1..], tail)
  }

  lemma {:induction false} ConcatTwo(a: seq<seq<Byte>>, b: seq<seq<Byte>>, tail: seq<Byte>)
    ensures Concat(a + b, tail) == Concat(a, Concat(b, tail))
    decreases |a|
  {
    if a == [] {
      assert a + b == b;
    } else {
      assert (a + b)[1..] == a[1..] + b;
      ConcatTwo(a[1..], b, tail);
    }
  }

  lemma ConcatCons(p: seq<Byte>, parts: seq<seq<Byte>>, tail: seq<Byte>)
    ensures Concat([p] + parts, tail) == p + Concat(parts, tail)
  {
    assert ([p] + parts)[1..] == parts;
  }

  lemma Concat1(a: seq<Byte>, tail: seq<Byte>)
    ensures Concat([a], tail) == a + tail
  {
    assert [a][1..] == [];
  }

  lemma Concat2(a: seq<Byte>, b: seq<Byte>, tail: seq<Byte>)
    ensures Concat([a, b], tail) == a + (b + tail)
  {
    assert [a, b] == [a] + [b];
    ConcatCons(a, [b], tail);
    Concat1(b, tail);
  }

  lemma Concat3(a: seq<Byte>, b: seq<Byte>, c: seq<Byte>, tail: seq<Byte>)
    ensures Concat([a, b, c], tail) == a + (b + (c + tail))
  {
    assert [a, b, c] == [a] + [b, c];
    ConcatCons(a, [b, c], tail);
    Concat2(b, c, tail);
  }

  lemma Concat4(a: seq<Byte>, b: seq<Byte>, c: seq<Byte>, d: seq<Byte>, tail: seq<Byte>)
    ensures Concat([a, b, c, d], tail) == a + (b + (c + (d + tail)))
  {
    assert [a, b, c, d] == [a] + [b, c, d];
    ConcatCons(a, [b, c, d], tail);
    Concat3(b, c, d, tail);
  }

  lemma Concat5(a: seq<Byte>, b: seq<Byte>, c: seq<Byte>, d: seq<Byte>, e: seq<Byte>, tail: seq<Byte>)
    ensures Concat([a, b, c, d, e], tail) == a + (b + (c + (d + (e + tail))))
  {
    assert [a, b, c, d, e] == [a] + [b, c, d, e];
    ConcatCons(a, [b, c, d, e], tail);
    Concat4(b, c, d, e, tail);
  }

  lemma Concat6(a: seq<Byte>, b: seq<Byte>, c: seq<Byte>, d: seq<Byte>, e: seq<Byte>, f: seq<Byte>, tail: seq<Byte>)
    ensures Concat([a, b, c, d, e, f], tail) == a + (b + (c + (d + (e + (f + tail)))))
  {
    assert [a, b, c, d, e, f] == [a] + [b, c, d, e, f];
    ConcatCons(a, [b, c, d, e, f], tail);
    Concat5(b, c, d, e, f, tail);
  }

  lemma Concat7(a: seq<Byte>, b: seq<Byte>, c: seq<Byte>, d: seq<Byte>,
        e: seq<Byte>, f: seq<Byte>, g: seq<Byte>, tail: seq<Byte>)
    ensures Concat([a, b, c, d, e, f, g], tail) == a + (b + (c + (d + (e + (f + (g + tail))))))
  {
    assert [a, b, c, d, e, f, g] == [a] + [b, c, d, e, f, g];
    ConcatCons(a, [b, c, d, e, f, g], tail);
    Concat6(b, c, d, e, f, g, tail);
  }

  lemma Concat8(a: seq<Byte>, b: seq<Byte>, c: seq<Byte>, d: seq<Byte>,
        e: seq<Byte>, f: seq<Byte>, g: seq<Byte>, h: seq<Byte>, tail: seq<Byte>)
    ensures Concat([a, b, c, d, e, f, g, h], tail) == a + (b + (c + (d + (e + (f + (g + (h + tail)))))))
  {
    assert [a, b, c, d, e, f, g, h] == [a] + [b, c, d, e, f, g, h];
    ConcatCons(a, [b, c, d, e, f, g, h], tail);
    Concat7(b, c, d, e, f, g, h, tail);
  }

  // ----- The format: every field in order -----

  function IdentityFields(w: Wire): seq<seq<Byte>>
    requires Fits(w)
  {
    [TextBytes(w.name), TextBytes(w.device), TextBytes(w.partitionUuid), Num(|w.backupdirs|), PairBytes(w.backupdirs)]
  }

  function OptionFields(w: Wire): seq<seq<Byte>>
    requires Fits(w)
  {
    [Flag(w.deleteAdditional), Flag(w.startOnHotplug), Flag(w.saveLog), Flag(w.compareChecksum), Flag(w.notify),
     TextBytes(w.notifyRecipients), TextBytes(w.scriptBefore), TextBytes(w.scriptAfter)]
  }

  function ScheduleFields(w: Wire): seq<seq<Byte>>
    requires Fits(w)
  {
    [Num(w.intervalType), TextBytes(w.intervalTime), Num(w.intervalDay), Num(w.luksType), TextBytes(w.luksFile)]
  }

  function PbsFields(w: Wire): seq<seq<Byte>>
    requires Fits(w)
  {
    [Flag(w.pbs), TextBytes(w.pbsServer), TextBytes(w.pbsStorage), Be32(|w.pbsIds|), ListBytes(w.pbsIds),
     TextBytes(w.pbsDest)]
  }

  function SshFields(w: Wire): seq<seq<Byte>>
    requires Fits(w)
  {
    [Flag(w.ssh), Num(|w.sshTargets|), TargetBytes(w.sshTargets), Flag(w.umountAfter)]
  }

  function Fields(w: Wire): (r: seq<seq<Byte>>)
    requires Fits(w)
    ensures |r| == 28
  {
    IdentityFields(w) + OptionFields(w) + ScheduleFields(w) + PbsFields(w) + SshFields(w)
  }

  lemma IdentityFormat(w: Wire, tail: seq<Byte>)
    requires Fits(w)
    ensures PutIdentity(w, tail) == Concat(IdentityFields(w), tail)
  {
    hide TextBytes, PairBytes, PutDirs, Num, Concat;
    DirsFormat(w.backupdirs, tail);
    Concat5(TextBytes(w.name), TextBytes(w.device), TextBytes(w.partitionUuid), Num(|w.backupdirs|),
            PairBytes(w.backupdirs), tail);
  }

  lemma OptionsFormat(w: Wire, tail: seq<Byte>)
    requires Fits(w)
    ensures PutOptions(w, tail) == Concat(OptionFields(w), tail)
  {
    hide TextBytes, Concat;
    var t8 := PutText(w.scriptAfter, tail);
    var t5 := PutText(w.notifyRecipients, PutText(w.scriptBefore, t8));
    FlagFirst(w.notify, t5);
    FlagFirst(w.compareChecksum, PutBool(w.notify, t5));
    FlagFirst(w.saveLog, PutBool(w.compareChecksum, PutBool(w.notify, t5)));
    var t2 := PutBool(w.saveLog, PutBool(w.compareChecksum, PutBool(w.notify, t5)));
    FlagFirst(w.startOnHotplug, t2);
    FlagFirst(w.deleteAdditional, PutBool(w.startOnHotplug, t2));
    hide PutBool, Flag;
    Concat8(Flag(w.deleteAdditional), Flag(w.startOnHotplug), Flag(w.saveLog), Flag(w.compareChecksum),
            Flag(w.notify), TextBytes(w.notifyRecipients), TextBytes(w.scriptBefore), TextBytes(w.scriptAfter), tail);
  }

  lemma ScheduleFormat(w: Wire, tail: seq<Byte>)
    requires Fits(w)
    ensures PutSchedule(w, tail) == Concat(ScheduleFields(w), tail)
  {
    hide TextBytes, Concat;
    var t4 := PutText(w.luksFile, tail);
    NumFirst(w.luksType, t4);
    var t2 := PutI32(w.luksType, t4);
    NumFirst(w.intervalDay, t2);
    NumFirst(w.intervalType, PutText(w.intervalTime, PutI32(w.intervalDay, t2)));
    hide PutI32, Num;
    Concat5(Num(w.intervalType), TextBytes(w.intervalTime), Num(w.intervalDay), Num(w.luksType),
            TextBytes(w.luksFile), tail);
  }

  lemma PbsFormat(w: Wire, tail: seq<Byte>)
    requires Fits(w)
    ensures PutPbs(w, tail) == Concat(PbsFields(w), tail)
  {
    hide TextBytes, Be32, ListBytes, PutTexts, Concat;
    ListFormat(w.pbsIds, PutText(w.pbsDest, tail));
    FlagFirst(w.pbs, PutText(w.pbsServer, PutText(w.pbsStorage,
      PutU32(|w.pbsIds|, PutTexts(w.pbsIds, PutText(w.pbsDest, tail))))));
    hide PutBool, Flag;
    Concat6(Flag(w.pbs), TextBytes(w.pbsServer), TextBytes(w.pbsStorage), Be32(|w.pbsIds|), ListBytes(w.pbsIds),
            TextBytes(w.pbsDest), tail);
  }

  lemma SshFormat(w: Wire, tail: seq<Byte>)
    requires Fits(w)
    ensures PutSsh(w, PutBool(w.umountAfter, tail)) == Concat(SshFields(w), tail)
  {
    hide TextBytes, TargetBytes, PutTargets, Concat;
    var last := PutBool(w.umountAfter, tail);
    TargetsFormat(w.sshTargets, last);
    FlagFirst(w.umountAfter, tail);
    NumFirst(|w.sshTargets|, PutTargets(w.sshTargets, last));
    FlagFirst(w.ssh, PutI32(|w.sshTargets|, PutTargets(w.sshTargets, last)));
    hide PutBool, PutI32, Flag, Num;
    Concat4(Flag(w.ssh), Num(|w.sshTargets|), TargetBytes(w.sshTargets), Flag(w.umountAfter), tail);
  }

  /** A job is written as its fields in this order, with nothing between them. */
  lemma JobFormat(w: Wire, tail: seq<Byte>)
    requires Fits(w)
    ensures PutJob(w, tail) == Concat(Fields(w), tail)
  {
    hide IdentityFields, OptionFields, ScheduleFields, PbsFields, SshFields, Concat, PutIdentity, PutOptions,
      PutSchedule, PutPbs, PutSsh, Fits;
    var a, b, c, d, e := IdentityFields(w), OptionFields(w), ScheduleFields(w), PbsFields(w), SshFields(w);
    ConcatTwo(a + b + c + d, e, tail);
    ConcatTwo(a + b + c, d, Concat(e, tail));
    ConcatTwo(a + b, c, Concat(d, Concat(e, tail)));
    ConcatTwo(a, b, Concat(c, Concat(d, Concat(e, tail))));
    SshFormat(w, tail);
    PbsFormat(w, Concat(e, tail));
    ScheduleFormat(w, Concat(d, Concat(e, tail)));
    OptionsFormat(w, Concat(c, Concat(d, Concat(e, tail))));
    IdentityFormat(w, Concat(b, Concat(c, Concat(d, Concat(e, tail)))));
  }

  /** Jobs that agree in their first fields agree in the bytes of those fields. */
  lemma SharedPrefix(w: Wire, v: Wire, k: nat, tail: seq<Byte>)
    requires Fits(w) && Fits(v) && k <= 28
    ensures Fields(w)[..k] == Fields(v)[..k] ==>
      var p := Concat(Fields(w)[..k], []);
      && PutJob(w, tail) == p + Concat(Fields(w)[k..], tail)
      && PutJob(v, tail) == p + Concat(Fields(v)[k..], tail)
  {
    if Fields(w)[..k] != Fields(v)[..k] {
      return;
    }
    hide Fields, Concat, PutJob, Fits;
    JobFormat(w, tail);
    JobFormat(v, tail);
    assert Fields(w) == Fields(w)[..k] + Fields(w)[k..] && Fields(v) == Fields(v)[..k] + Fields(v)[k..];
    ConcatTwo(Fields(w)[..k], Fields(w)[k..], tail);
    ConcatTwo(Fields(v)[..k], Fields(v)[k..], tail);
    ConcatTail(Fields(w)[..k], Concat(Fields(w)[k..], tail));
    ConcatTail(Fields(w)[..k], Concat(Fields(v)[k..], tail));
  }

  lemma {:induction false} ConcatTail(parts: seq<seq<Byte>>, tail: seq<Byte>)
    ensures Concat(parts, tail) == Concat(parts, []) + tail
    decreases |parts|
  {
    if parts == [] {
      assert [] + tail == tail;
    } else {
      ConcatTail(parts[1..], tail);
      Regroup3(parts[0], Concat(parts[1..], []), tail, []);
    }
  }
}
