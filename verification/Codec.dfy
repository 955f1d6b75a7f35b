/** The byte format of a job: the operators `<<` and `>>` of `tiBackupJob` over a `QDataStream`
    of version Qt_5_7 (big-endian integers, one-byte bools, UTF-16 strings behind their byte
    count, lists behind their element count).

    `Put...(v, tail)` gives the bytes of `v` followed by `tail`; `Get...(in)` reads from the bytes
    that are left. The reader is total, as Qt's is: past the end every read yields a default. */
module Codec {
  import opened MultiHashes
  import opened Jobs

  type Byte = x: int | 0 <= x < 0x100
  type Unit = x: int | 0 <= x < 0x1_0000
  type U32 = x: int | 0 <= x < 0x1_0000_0000
  type Text = seq<Unit>

  /** A `QString` can be null. A null string equals the empty one but is written differently. */
  datatype QStr = Null | Chars(units: Text) {
    function Value(): Text {
      if Null? then [] else units
    }
  }

  type Dirs = MultiHash<Text, Text>
  type Job = JobOf<Text, Dirs>
  type Target = TargetOf<Text, Dirs>

  /** What one run of the writer sees: strings with their nullness, hashes in iteration order. */
  type Wire = JobOf<QStr, seq<(QStr, QStr)>>
  type WireTarget = TargetOf<QStr, seq<(QStr, QStr)>>

  datatype Status = Ok | ReadPastEnd | ReadCorruptData | SizeLimitExceeded

  /** The unread bytes and the stream status. */
  datatype Input = Input(rest: seq<Byte>, status: Status) {
    /** `QDataStream::setStatus` keeps the first error. */
    function Failed(s: Status): Input {
      Input(rest, if status == Ok then s else status)
    }
    function Exhausted(): Input {
      Input([], if status == Ok then ReadPastEnd else status)
    }
  }

  const NULL_MARK: U32 := 0xFFFF_FFFF

  /** Whether the list reader refuses the count `NULL_MARK`. Qt versions differ, so the value is left open. */
  const LIMITS_LISTS: bool

  // ----- Writing -----

  function Be32(n: U32): (r: seq<Byte>)
    ensures |r| == 4
  {
    [n / 0x100_0000, n / 0x1_0000 % 0x100, n / 0x100 % 0x100, n % 0x100]
  }

  function Unsigned(n: Int32): U32 {
    if n < 0 then n + 0x1_0000_0000 else n
  }

  function UnitBytes(u: Text): (r: seq<Byte>)
    ensures |r| == 2 * |u|
  {
    if u == [] then [] else [u[0] / 0x100, u[0] % 0x100] + UnitBytes(u[1..])
  }

  predicate TextFits(s: QStr) {
    2 * |s.Value()| < NULL_MARK
  }

  function TextBytes(s: QStr): seq<Byte>
    requires TextFits(s)
  {
    if s.Null? then Be32(NULL_MARK) else Be32(2 * |s.units|) + UnitBytes(s.units)
  }

  function PutU32(n: U32, tail: seq<Byte>): seq<Byte> {
    Be32(n) + tail
  }

  function PutI32(n: Int32, tail: seq<Byte>): seq<Byte> {
    PutU32(Unsigned(n), tail)
  }

  function PutBool(b: bool, tail: seq<Byte>): seq<Byte> {
    [if b then 1 else 0] + tail
  }

  function PutText(s: QStr, tail: seq<Byte>): seq<Byte>
    requires TextFits(s)
  {
    TextBytes(s) + tail
  }

  predicate PairsFit(ps: seq<(QStr, QStr)>) {
    |ps| < 0x8000_0000 && forall i :: 0 <= i < |ps| ==> TextFits(ps[i].0) && TextFits(ps[i].1)
  }

  function PutPairs(ps: seq<(QStr, QStr)>, tail: seq<Byte>): seq<Byte>
    requires PairsFit(ps)
    decreases |ps|
  {
    if ps == [] then tail else PutText(ps[0].0, PutText(ps[0].1, PutPairs(ps[1..], tail)))
  }

  function PutDirs(ps: seq<(QStr, QStr)>, tail: seq<Byte>): seq<Byte>
    requires PairsFit(ps)
  {
    PutI32(|ps|, PutPairs(ps, tail))
  }

  predicate TextsFit(ts: seq<QStr>) {
    |ts| < NULL_MARK && forall i :: 0 <= i < |ts| ==> TextFits(ts[i])
  }

  function PutTexts(ts: seq<QStr>, tail: seq<Byte>): seq<Byte>
    requires TextsFit(ts)
  {
    if ts == [] then tail else PutText(ts[0], PutTexts(ts[1..], tail))
  }

  predicate TargetsFit(ts: seq<WireTarget>) {
    |ts| < 0x8000_0000 && forall i :: 0 <= i < |ts| ==> TextFits(ts[i].server) && PairsFit(ts[i].dirs)
  }

  function PutTargets(ts: seq<WireTarget>, tail: seq<Byte>): seq<Byte>
    requires TargetsFit(ts)
  {
    if ts == [] then tail
    else PutText(ts[0].server, PutDirs(ts[0].dirs, PutTargets(ts[1..], tail)))
  }

  predicate Fits(w: Wire) {
    && TextFits(w.name) && TextFits(w.device) && TextFits(w.partitionUuid)
    && PairsFit(w.backupdirs)
    && TextFits(w.notifyRecipients) && TextFits(w.scriptBefore) && TextFits(w.scriptAfter)
    && TextFits(w.intervalTime) && TextFits(w.luksFile)
    && TextFits(w.pbsServer) && TextFits(w.pbsStorage) && TextsFit(w.pbsIds) && TextFits(w.pbsDest)
    && TargetsFit(w.sshTargets)
  }

  function PutIdentity(w: Wire, tail: seq<Byte>): seq<Byte>
    requires Fits(w)
  {
    PutText(w.name, PutText(w.device, PutText(w.partitionUuid, PutDirs(w.backupdirs, tail))))
  }

  function PutOptions(w: Wire, tail: seq<Byte>): seq<Byte>
    requires Fits(w)
  {
    PutBool(w.deleteAdditional, PutBool(w.startOnHotplug, PutBool(w.saveLog, PutBool(w.compareChecksum,
    PutBool(w.notify, PutText(w.notifyRecipients, PutText(w.scriptBefore, PutText(w.scriptAfter, tail))))))))
  }

  function PutSchedule(w: Wire, tail: seq<Byte>): seq<Byte>
    requires Fits(w)
  {
    PutI32(w.intervalType, PutText(w.intervalTime, PutI32(w.intervalDay,
    PutI32(w.luksType, PutText(w.luksFile, tail)))))
  }

  function PutPbs(w: Wire, tail: seq<Byte>): seq<Byte>
    requires Fits(w)
  {
    PutBool(w.pbs, PutText(w.pbsServer, PutText(w.pbsStorage,
    PutU32(|w.pbsIds|, PutTexts(w.pbsIds, PutText(w.pbsDest, tail))))))
  }

  function PutSsh(w: Wire, tail: seq<Byte>): seq<Byte>
    requires Fits(w)
  {
    PutBool(w.ssh, PutI32(|w.sshTargets|, PutTargets(w.sshTargets, tail)))
  }

  /** The format before the trailing flag was added. */
  function PutOldJob(w: Wire, tail: seq<Byte>): seq<Byte>
    requires Fits(w)
  {
    PutIdentity(w, PutOptions(w, PutSchedule(w, PutPbs(w, PutSsh(w, tail)))))
  }

  function PutJob(w: Wire, tail: seq<Byte>): seq<Byte>
    requires Fits(w)
  {
    PutOldJob(w, PutBool(w.umountAfter, tail))
  }

  // ----- Reading -----

  function GetU32(i: Input): (U32, Input) {
    if |i.rest| >= 4 then
      var a: int, b: int, c: int, d: int := i.rest[0], i.rest[1], i.rest[2], i.rest[3];
      (0x100_0000 * a + 0x1_0000 * b + 0x100 * c + d, Input(i.rest[4..], i.status))
    else (0, i.Exhausted())
  }

  function GetI32(i: Input): (Int32, Input) {
    var (n, i1) := GetU32(i);
    (if n >= 0x8000_0000 then n - 0x1_0000_0000 else n, i1)
  }

  function GetBool(i: Input): (bool, Input) {
    if |i.rest| >= 1 then (i.rest[0] != 0, Input(i.rest[1..], i.status)) else (false, i.Exhausted())
  }

  function Units(bytes: seq<Byte>): Text
    requires |bytes| % 2 == 0
  {
    if bytes == [] then []
    else
      var high: int, low: int := bytes[0], bytes[1];
      [0x100 * high + low] + Units(bytes[2..])
  }

  function GetText(i: Input): (Text, Input) {
    var (n, i1) := GetU32(i);
    if n == NULL_MARK || n == 0 then ([], i1)
    else if n % 2 == 1 then ([], i1.Failed(ReadCorruptData))
    else if n > |i1.rest| then ([], i1.Exhausted())
    else (Units(i1.rest[..n]), Input(i1.rest[n..], i1.status))
  }

  function GetPairs(n: int, h: Dirs, i: Input): (Dirs, Input)
    decreases n
  {
    if n <= 0 then (h, i)
    else
      var (key, i1) := GetText(i);
      var (value, i2) := GetText(i1);
      GetPairs(n - 1, Insert(h, key, value), i2)
  }

  function GetDirs(i: Input): (Dirs, Input) {
    var (n, i1) := GetI32(i);
    GetPairs(n, map[], i1)
  }

  /** The element loop of Qt's list reader: the first bad element empties the list. */
  function GetTextList(n: nat, acc: seq<Text>, i: Input): (seq<Text>, Input) {
    if n == 0 then (acc, i)
    else
      var (t, i1) := GetText(i);
      if i1.status != Ok then ([], i1) else GetTextList(n - 1, acc + [t], i1)
  }

  /** Qt's list reader sets an earlier error aside while it runs and restores it afterwards. */
  function GetTexts(i: Input): (seq<Text>, Input) {
    var (n, i1) := GetU32(Input(i.rest, Ok));
    var (ts, i2) :=
      if LIMITS_LISTS && n == NULL_MARK then ([], i1.Failed(SizeLimitExceeded)) else GetTextList(n, [], i1);
    (ts, if i.status == Ok then i2 else Input(i2.rest, i.status))
  }

  function GetTargets(n: int, acc: seq<Target>, i: Input): (seq<Target>, Input)
    decreases n
  {
    if n <= 0 then (acc, i)
    else
      var (server, i1) := GetText(i);
      var (dirs, i2) := GetDirs(i1);
      GetTargets(n - 1, acc + [Target(server, dirs)], i2)
  }

  function GetIdentity(o: Job, i: Input): (Job, Input) {
    var (name, i1) := GetText(i);
    var (device, i2) := GetText(i1);
    var (uuid, i3) := GetText(i2);
    var (dirs, i4) := GetDirs(i3);
    (o.(name := name, device := device, partitionUuid := uuid, backupdirs := dirs), i4)
  }

  function GetFlags(o: Job, i: Input): (Job, Input) {
    var (a, i1) := GetBool(i);
    var (b, i2) := GetBool(i1);
    var (c, i3) := GetBool(i2);
    var (d, i4) := GetBool(i3);
    (o.(deleteAdditional := a, startOnHotplug := b, saveLog := c, compareChecksum := d), i4)
  }

  function GetOptions(o: Job, i: Input): (Job, Input) {
    var (o4, i4) := GetFlags(o, i);
    var (e, i5) := GetBool(i4);
    var (f, i6) := GetText(i5);
    var (g, i7) := GetText(i6);
    var (h, i8) := GetText(i7);
    (o4.(notify := e, notifyRecipients := f, scriptBefore := g, scriptAfter := h), i8)
  }

  function GetSchedule(o: Job, i: Input): (Job, Input) {
    var (a, i1) := GetI32(i);
    var (b, i2) := GetText(i1);
    var (c, i3) := GetI32(i2);
    var (d, i4) := GetI32(i3);
    var (e, i5) := GetText(i4);
    (o.(intervalType := a, intervalTime := b, intervalDay := c, luksType := d, luksFile := e), i5)
  }

  function GetPbs(o: Job, i: Input): (Job, Input) {
    var (a, i1) := GetBool(i);
    var (b, i2) := GetText(i1);
    var (c, i3) := GetText(i2);
    var (d, i4) := GetTexts(i3);
    var (e, i5) := GetText(i4);
    (o.(pbs := a, pbsServer := b, pbsStorage := c, pbsIds := d, pbsDest := e), i5)
  }

  function GetSsh(o: Job, i: Input): (Job, Input) {
    var (a, i1) := GetBool(i);
    var (n, i2) := GetI32(i1);
    var (ts, i3) := GetTargets(n, [], i2);
    (o.(ssh := a, sshTargets := ts), i3)
  }

  /** Everything before the trailing flag. */
  function GetBody(o: Job, i: Input): (Job, Input) {
    var (o1, i1) := GetIdentity(o, i);
    var (o2, i2) := GetOptions(o1, i1);
    var (o3, i3) := GetSchedule(o2, i2);
    var (o4, i4) := GetPbs(o3, i3);
    GetSsh(o4, i4)
  }

  /** `operator>>` into the object `o`; the flag is read only if bytes are left. */
  function GetJob(o: Job, i: Input): (Job, Input) {
    var (o1, i1) := GetBody(o, i);
    if i1.rest == [] then (o1, i1)
    else
      var (u, i2) := GetBool(i1);
      (o1.(umountAfter := u), i2)
  }

  // ----- Reading what was written, piece by piece -----

  lemma GetPutU32(n: U32, tail: seq<Byte>, s: Status)
    ensures GetU32(Input(PutU32(n, tail), s)) == (n, Input(tail, s))
  {
    var put := PutU32(n, tail);
    assert put[4..] == tail && put[..4] == Be32(n);
    assert put[0] == Be32(n)[0] && put[1] == Be32(n)[1] && put[2] == Be32(n)[2] && put[3] == Be32(n)[3];
    Be32Digits(n);
  }

  lemma Be32Digits(n: U32)
    ensures n == 0x100_0000 * (n / 0x100_0000) + 0x1_0000 * (n / 0x1_0000 % 0x100)
                 + 0x100 * (n / 0x100 % 0x100) + n % 0x100
  {
    assert n / 0x1_0000 == n / 0x100 / 0x100 && n / 0x100_0000 == n / 0x1_0000 / 0x100;
  }

  lemma GetPutI32(n: Int32, tail: seq<Byte>, s: Status)
    ensures GetI32(Input(PutI32(n, tail), s)) == (n, Input(tail, s))
  {
    GetPutU32(Unsigned(n), tail, s);
  }

  lemma GetPutBool(b: bool, tail: seq<Byte>, s: Status)
    ensures GetBool(Input(PutBool(b, tail), s)) == (b, Input(tail, s))
  {
    assert PutBool(b, tail)[1..] == tail;
  }

  lemma {:induction false} UnitsOfBytes(u: Text)
    ensures Units(UnitBytes(u)) == u
  {
    if u != [] {
      assert UnitBytes(u)[2..] == UnitBytes(u[1..]);
      UnitsOfBytes(u[1..]);
    }
  }

  lemma GetPutText(s: QStr, tail: seq<Byte>, st: Status)
    requires TextFits(s)
    ensures GetText(Input(PutText(s, tail), st)) == (s.Value(), Input(tail, st))
  {
    if s.Null? {
      GetPutU32(NULL_MARK, tail, st);
    } else {
      var bytes := UnitBytes(s.units);
      assert PutText(s, tail) == PutU32(2 * |s.units|, bytes + tail);
      GetPutU32(2 * |s.units|, bytes + tail, st);
      assert (bytes + tail)[..|bytes|] == bytes && (bytes + tail)[|bytes|..] == tail;
      UnitsOfBytes(s.units);
    }
  }

  function PairValues(ps: seq<(QStr, QStr)>): (r: seq<(Text, Text)>)
    ensures |r| == |ps|
    ensures forall i :: 0 <= i < |ps| ==> r[i] == (ps[i].0.Value(), ps[i].1.Value())
  {
    if ps == [] then [] else [(ps[0].0.Value(), ps[0].1.Value())] + PairValues(ps[1..])
  }

  lemma {:induction false} GetPutPairs(ps: seq<(QStr, QStr)>, h: Dirs, tail: seq<Byte>, s: Status)
    requires PairsFit(ps)
    ensures GetPairs(|ps|, h, Input(PutPairs(ps, tail), s)) == (InsertAll(h, PairValues(ps)), Input(tail, s))
    decreases |ps|
  {
    if ps != [] {
      var rest := PutPairs(ps[1..], tail);
      GetPutText(ps[0].0, PutText(ps[0].1, rest), s);
      GetPutText(ps[0].1, rest, s);
      GetPutPairs(ps[1..], Insert(h, ps[0].0.Value(), ps[0].1.Value()), tail, s);
    }
  }

  lemma GetPutDirs(ps: seq<(QStr, QStr)>, tail: seq<Byte>, s: Status)
    requires PairsFit(ps)
    ensures GetDirs(Input(PutDirs(ps, tail), s)) == (FromPairs(PairValues(ps)), Input(tail, s))
  {
    GetPutI32(|ps|, PutPairs(ps, tail), s);
    GetPutPairs(ps, map[], tail, s);
  }

  function TextValues(ts: seq<QStr>): (r: seq<Text>)
    ensures |r| == |ts|
    ensures forall i :: 0 <= i < |ts| ==> r[i] == ts[i].Value()
  {
    if ts == [] then [] else [ts[0].Value()] + TextValues(ts[1..])
  }

  lemma {:induction false} GetPutTexts(ts: seq<QStr>, acc: seq<Text>, tail: seq<Byte>)
    requires TextsFit(ts)
    ensures GetTextList(|ts|, acc, Input(PutTexts(ts, tail), Ok)) == (acc + TextValues(ts), Input(tail, Ok))
    decreases |ts|
  {
    if ts == [] {
      assert acc + TextValues(ts) == acc;
    } else {
      GetPutText(ts[0], PutTexts(ts[1..], tail), Ok);
      GetPutTexts(ts[1..], acc + [ts[0].Value()], tail);
      assert acc + [ts[0].Value()] + TextValues(ts[1..]) == acc + TextValues(ts);
    }
  }

  function TargetValues(ts: seq<WireTarget>): (r: seq<Target>)
    ensures |r| == |ts|
    ensures forall i :: 0 <= i < |ts| ==>
      r[i] == Target(ts[i].server.Value(), FromPairs(PairValues(ts[i].dirs)))
  {
    if ts == [] then []
    else [Target(ts[0].server.Value(), FromPairs(PairValues(ts[0].dirs)))] + TargetValues(ts[1..])
  }

  lemma {:induction false} GetPutTargets(ts: seq<WireTarget>, acc: seq<Target>, tail: seq<Byte>, s: Status)
    requires TargetsFit(ts)
    ensures GetTargets(|ts|, acc, Input(PutTargets(ts, tail), s)) == (acc + TargetValues(ts), Input(tail, s))
    decreases |ts|
  {
    if ts == [] {
      assert acc + TargetValues(ts) == acc;
    } else {
      var rest := PutTargets(ts[1..], tail);
      GetPutText(ts[0].server, PutDirs(ts[0].dirs, rest), s);
      GetPutDirs(ts[0].dirs, rest, s);
      var t: Target := Target(ts[0].server.Value(), FromPairs(PairValues(ts[0].dirs)));
      GetPutTargets(ts[1..], acc + [t], tail, s);
      assert acc + [t] + TargetValues(ts[1..]) == acc + TargetValues(ts);
    }
  }

  // ----- The round trip -----

  /** The job that the written form `w` stands for, once every hash has been refilled in the order
      written; the trailing flag is taken from `umount`. */
  function Loaded(w: Wire, umount: bool): Job {
    Job(w.name.Value(), w.device.Value(), w.partitionUuid.Value(),
        FromPairs(PairValues(w.backupdirs)),
        w.deleteAdditional, w.startOnHotplug, w.saveLog, w.compareChecksum, umount,
        w.notify, w.notifyRecipients.Value(), w.scriptBefore.Value(), w.scriptAfter.Value(),
        w.intervalType, w.intervalTime.Value(), w.intervalDay,
        w.luksType, w.luksFile.Value(),
        w.pbs, w.pbsServer.Value(), w.pbsStorage.Value(), TextValues(w.pbsIds), w.pbsDest.Value(),
        w.ssh, TargetValues(w.sshTargets))
  }

  lemma GetPutIdentity(w: Wire, o: Job, tail: seq<Byte>, s: Status)
    requires Fits(w)
    ensures GetIdentity(o, Input(PutIdentity(w, tail), s)) ==
            (o.(name := w.name.Value(), device := w.device.Value(), partitionUuid := w.partitionUuid.Value(),
                backupdirs := FromPairs(PairValues(w.backupdirs))), Input(tail, s))
  {
    var t3 := PutDirs(w.backupdirs, tail);
    var t2 := PutText(w.partitionUuid, t3);
    var t1 := PutText(w.device, t2);
    GetPutText(w.name, t1, s);
    GetPutText(w.device, t2, s);
    GetPutText(w.partitionUuid, t3, s);
    GetPutDirs(w.backupdirs, tail, s);
  }

  lemma GetPutOptions(w: Wire, o: Job, tail: seq<Byte>, s: Status)
    requires Fits(w)
    ensures GetOptions(o, Input(PutOptions(w, tail), s)) ==
            (o.(deleteAdditional := w.deleteAdditional, startOnHotplug := w.startOnHotplug,
                saveLog := w.saveLog, compareChecksum := w.compareChecksum, notify := w.notify,
                notifyRecipients := w.notifyRecipients.Value(), scriptBefore := w.scriptBefore.Value(),
                scriptAfter := w.scriptAfter.Value()), Input(tail, s))
  {
    var t7 := PutText(w.scriptAfter, tail);
    var t6 := PutText(w.scriptBefore, t7);
    var t5 := PutText(w.notifyRecipients, t6);
    var t4 := PutBool(w.notify, t5);
    var t3 := PutBool(w.compareChecksum, t4);
    var t2 := PutBool(w.saveLog, t3);
    var t1 := PutBool(w.startOnHotplug, t2);
    GetPutBool(w.deleteAdditional, t1, s);
    GetPutBool(w.startOnHotplug, t2, s);
    GetPutBool(w.saveLog, t3, s);
    GetPutBool(w.compareChecksum, t4, s);
    GetPutBool(w.notify, t5, s);
    GetPutText(w.notifyRecipients, t6, s);
    GetPutText(w.scriptBefore, t7, s);
    GetPutText(w.scriptAfter, tail, s);
  }

  lemma GetPutSchedule(w: Wire, o: Job, tail: seq<Byte>, s: Status)
    requires Fits(w)
    ensures GetSchedule(o, Input(PutSchedule(w, tail), s)) ==
            (o.(intervalType := w.intervalType, intervalTime := w.intervalTime.Value(),
                intervalDay := w.intervalDay, luksType := w.luksType, luksFile := w.luksFile.Value()),
             Input(tail, s))
  {
    var t4 := PutText(w.luksFile, tail);
    var t3 := PutI32(w.luksType, t4);
    var t2 := PutI32(w.intervalDay, t3);
    var t1 := PutText(w.intervalTime, t2);
    GetPutI32(w.intervalType, t1, s);
    GetPutText(w.intervalTime, t2, s);
    GetPutI32(w.intervalDay, t3, s);
    GetPutI32(w.luksType, t4, s);
    GetPutText(w.luksFile, tail, s);
  }

  lemma GetPutPbs(w: Wire, o: Job, tail: seq<Byte>, s: Status)
    requires Fits(w)
    ensures GetPbs(o, Input(PutPbs(w, tail), s)) ==
            (o.(pbs := w.pbs, pbsServer := w.pbsServer.Value(), pbsStorage := w.pbsStorage.Value(),
                pbsIds := TextValues(w.pbsIds), pbsDest := w.pbsDest.Value()), Input(tail, s))
  {
    var t4 := PutText(w.pbsDest, tail);
    var t3' := PutTexts(w.pbsIds, t4);
    var t3 := PutU32(|w.pbsIds|, t3');
    var t2 := PutText(w.pbsStorage, t3);
    var t1 := PutText(w.pbsServer, t2);
    GetPutBool(w.pbs, t1, s);
    GetPutText(w.pbsServer, t2, s);
    GetPutText(w.pbsStorage, t3, s);
    GetPutU32(|w.pbsIds|, t3', Ok);
    GetPutTexts(w.pbsIds, [], t4);
    assert [] + TextValues(w.pbsIds) == TextValues(w.pbsIds);
    GetPutText(w.pbsDest, tail, s);
  }

  lemma GetPutSsh(w: Wire, o: Job, tail: seq<Byte>, s: Status)
    requires Fits(w)
    ensures GetSsh(o, Input(PutSsh(w, tail), s)) ==
            (o.(ssh := w.ssh, sshTargets := TargetValues(w.sshTargets)), Input(tail, s))
  {
    var t2 := PutTargets(w.sshTargets, tail);
    GetPutBool(w.ssh, PutI32(|w.sshTargets|, t2), s);
    GetPutI32(|w.sshTargets|, t2, s);
    GetPutTargets(w.sshTargets, [], tail, s);
    assert [] + TargetValues(w.sshTargets) == TargetValues(w.sshTargets);
  }

  lemma GetPutBody(w: Wire, o: Job, tail: seq<Byte>, s: Status)
    requires Fits(w)
    ensures GetBody(o, Input(PutOldJob(w, tail), s)) == (Loaded(w, o.umountAfter), Input(tail, s))
  {
    var t4 := PutSsh(w, tail);
    var t3 := PutPbs(w, t4);
    var t2 := PutSchedule(w, t3);
    var t1 := PutOptions(w, t2);
    GetPutIdentity(w, o, t1, s);
    var o1 := GetIdentity(o, Input(PutIdentity(w, t1), s)).0;
    GetPutOptions(w, o1, t2, s);
    var o2 := GetOptions(o1, Input(t1, s)).0;
    GetPutSchedule(w, o2, t3, s);
    var o3 := GetSchedule(o2, Input(t2, s)).0;
    GetPutPbs(w, o3, t4, s);
    var o4 := GetPbs(o3, Input(t3, s)).0;
    GetPutSsh(w, o4, tail, s);
  }
}
