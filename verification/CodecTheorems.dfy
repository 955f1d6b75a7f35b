/** What the job codec promises: round trips in any context, streams of the older format, and the
    detection of truncated streams. */
module CodecTheorems {
  import opened MultiHashes
  import opened Jobs
  import opened Codec

  /** `w` is a form in which the writer may emit the target `t`: any nullness of its empty strings,
      any iteration order of its folder map. */
  ghost predicate ShowsTarget(w: WireTarget, t: Target) {
    w.server.Value() == t.server && Lists(PairValues(w.dirs), t.dirs)
  }

  /** `w` is a form in which the writer may emit the job `j`. */
  ghost predicate Shows(w: Wire, j: Job) {
    && w.name.Value() == j.name && w.device.Value() == j.device
    && w.partitionUuid.Value() == j.partitionUuid
    && Lists(PairValues(w.backupdirs), j.backupdirs)
    && w.deleteAdditional == j.deleteAdditional && w.startOnHotplug == j.startOnHotplug
    && w.saveLog == j.saveLog && w.compareChecksum == j.compareChecksum
    && w.umountAfter == j.umountAfter
    && w.notify == j.notify && w.notifyRecipients.Value() == j.notifyRecipients
    && w.scriptBefore.Value() == j.scriptBefore && w.scriptAfter.Value() == j.scriptAfter
    && w.intervalType == j.intervalType && w.intervalTime.Value() == j.intervalTime
    && w.intervalDay == j.intervalDay
    && w.luksType == j.luksType && w.luksFile.Value() == j.luksFile
    && w.pbs == j.pbs && w.pbsServer.Value() == j.pbsServer && w.pbsStorage.Value() == j.pbsStorage
    && TextValues(w.pbsIds) == j.pbsIds && w.pbsDest.Value() == j.pbsDest
    && w.ssh == j.ssh
    && |w.sshTargets| == |j.sshTargets|
    && forall i :: 0 <= i < |j.sshTargets| ==> ShowsTarget(w.sshTargets[i], j.sshTargets[i])
  }

  // ----- Sizes -----

  predicate Short(t: Text) {
    2 * |t| < NULL_MARK
  }

  ghost predicate ShortDirs(h: Dirs) {
    Size(h) < 0x8000_0000 && forall k :: k in h ==> Short(k) && forall i :: 0 <= i < |h[k]| ==> Short(h[k][i])
  }

  /** The job's texts, lists and folder maps fit the fields of the format. */
  ghost predicate SizesFit(j: Job) {
    && Short(j.name) && Short(j.device) && Short(j.partitionUuid) && ShortDirs(j.backupdirs)
    && Short(j.notifyRecipients) && Short(j.scriptBefore) && Short(j.scriptAfter)
    && Short(j.intervalTime) && Short(j.luksFile)
    && Short(j.pbsServer) && Short(j.pbsStorage) && Short(j.pbsDest)
    && |j.pbsIds| < NULL_MARK && (forall i :: 0 <= i < |j.pbsIds| ==> Short(j.pbsIds[i]))
    && |j.sshTargets| < 0x8000_0000
    && forall i :: 0 <= i < |j.sshTargets| ==> Short(j.sshTargets[i].server) && ShortDirs(j.sshTargets[i].dirs)
  }

  lemma ShownDirsFit(ps: seq<(QStr, QStr)>, h: Dirs)
    requires Lists(PairValues(ps), h) && ShortDirs(h)
    ensures PairsFit(ps)
  {
    var pairs := PairValues(ps);
    ListingSize(pairs, h);
    forall i | 0 <= i < |ps|
      ensures TextFits(ps[i].0) && TextFits(ps[i].1)
    {
      Selected(pairs, i);
      assert Select(pairs, pairs[i].0) == Get(h, pairs[i].0);
    }
  }

  /** Every written form of a job whose sizes fit can be written. */
  lemma ShownFits(w: Wire, j: Job)
    requires Shows(w, j) && SizesFit(j)
    ensures Fits(w)
  {
    ShownDirsFit(w.backupdirs, j.backupdirs);
    forall i | 0 <= i < |w.pbsIds|
      ensures TextFits(w.pbsIds[i])
    {
      assert TextValues(w.pbsIds)[i] == j.pbsIds[i];
    }
    forall i | 0 <= i < |w.sshTargets|
      ensures TextFits(w.sshTargets[i].server) && PairsFit(w.sshTargets[i].dirs)
    {
      assert ShowsTarget(w.sshTargets[i], j.sshTargets[i]);
      ShownDirsFit(w.sshTargets[i].dirs, j.sshTargets[i].dirs);
    }
  }

  lemma ShownIsLoadedReversed(w: Wire, j: Job)
    requires Shows(w, j)
    ensures Loaded(w, w.umountAfter) == Reversed(j)
  {
    ReinsertReverses(PairValues(w.backupdirs), j.backupdirs);
    forall i | 0 <= i < |j.sshTargets|
      ensures TargetValues(w.sshTargets)[i] == ReversedTargets(j.sshTargets)[i]
    {
      assert ShowsTarget(w.sshTargets[i], j.sshTargets[i]);
      ReinsertReverses(PairValues(w.sshTargets[i].dirs), j.sshTargets[i].dirs);
    }
    assert TargetValues(w.sshTargets) == ReversedTargets(j.sshTargets);
  }

  /** Whatever object is read into and whatever bytes follow: the reader yields the same job, with
      only the values of each folder key reversed, and leaves exactly the bytes that follow. */
  lemma RoundTrip(w: Wire, j: Job, o: Job, suffix: seq<Byte>, s: Status)
    requires Fits(w) && Shows(w, j)
    ensures GetJob(o, Input(PutJob(w, suffix), s)) == (Reversed(j), Input(suffix, s))
    ensures SameJob(j, Reversed(j))
  {
    var tail := PutBool(w.umountAfter, suffix);
    GetPutBody(w, o, tail, s);
    GetPutBool(w.umountAfter, suffix, s);
    ShownIsLoadedReversed(w, j);
    ReversedIsSame(j);
  }

  /** Two trips, each with its own iteration orders, restore the job exactly. */
  lemma TwoRoundTrips(w: Wire, j: Job, o: Job, v: Wire, p: Job, suffix: seq<Byte>, s: Status)
    requires Fits(w) && Shows(w, j) && Fits(v)
    ensures Shows(v, GetJob(o, Input(PutJob(w, []), Ok)).0) ==>
      GetJob(p, Input(PutJob(v, suffix), s)) == (j, Input(suffix, s))
  {
    hide GetJob, PutJob, Fits, Shows, Reversed;
    RoundTrip(w, j, o, [], Ok);
    ReversedIsSame(j);
    if Shows(v, Reversed(j)) {
      RoundTrip(v, Reversed(j), p, suffix, s);
    }
  }

  /** No written job is a prefix of another one's bytes, and equal bytes mean equal jobs. */
  lemma PrefixFree(w: Wire, j: Job, v: Wire, k: Job, a: seq<Byte>, b: seq<Byte>)
    requires Fits(w) && Shows(w, j) && Fits(v) && Shows(v, k)
    ensures PutJob(w, a) == PutJob(v, b) ==> j == k && a == b
  {
    hide GetJob, PutJob, Fits, Shows, Reversed;
    RoundTrip(w, j, j, a, Ok);
    RoundTrip(v, k, j, b, Ok);
    ReversedIsSame(j);
    ReversedIsSame(k);
  }

  // ----- Several jobs in one stream -----

  predicate AllFit(ws: seq<Wire>) {
    forall i :: 0 <= i < |ws| ==> Fits(ws[i])
  }

  function PutJobs(ws: seq<Wire>, tail: seq<Byte>): seq<Byte>
    requires AllFit(ws)
  {
    if ws == [] then tail else PutJob(ws[0], PutJobs(ws[1..], tail))
  }

  /** Reads one job into each of the objects `os`. */
  function GetJobs(os: seq<Job>, i: Input): (seq<Job>, Input)
    decreases |os|
  {
    if os == [] then ([], i)
    else
      var (j, i1) := GetJob(os[0], i);
      var (js, i2) := GetJobs(os[1..], i1);
      ([j] + js, i2)
  }

  lemma {:induction false} RoundTripMany(ws: seq<Wire>, js: seq<Job>, os: seq<Job>, suffix: seq<Byte>, s: Status)
    requires |ws| == |js| == |os| && AllFit(ws)
    requires forall i :: 0 <= i < |ws| ==> Shows(ws[i], js[i])
    ensures
      var (rs, left) := GetJobs(os, Input(PutJobs(ws, suffix), s));
      && left == Input(suffix, s)
      && |rs| == |js|
      && forall i :: 0 <= i < |js| ==> rs[i] == Reversed(js[i]) && SameJob(js[i], rs[i])
    decreases |ws|
  {
    hide GetJob, PutJob, Fits, Shows, SameJob, Reversed;
    if ws != [] {
      RoundTrip(ws[0], js[0], os[0], PutJobs(ws[1..], suffix), s);
      RoundTripMany(ws[1..], js[1..], os[1..], suffix, s);
    }
  }

  // ----- Streams written before the trailing flag existed -----

  /** An old job is read intact, leaving the bytes behind it alone, exactly when it ends the stream.
      The flag then keeps the value it had in the object, which is true for a new object. Otherwise
      the reader takes the first byte that follows for the flag. */
  lemma OldStream(w: Wire, j: Job, o: Job, suffix: seq<Byte>, s: Status)
    requires Fits(w) && Shows(w, j)
    ensures
      var (r, left) := GetJob(o, Input(PutOldJob(w, suffix), s));
      && (left == Input(suffix, s) <==> suffix == [])
      && (suffix == [] ==> r == Reversed(j).(umountAfter := o.umountAfter))
      && (suffix != [] ==> left == Input(suffix[1..], s) && r == Reversed(j).(umountAfter := suffix[0] != 0))
  {
    hide GetBody, PutOldJob, Fits, Shows, Loaded, Reversed;
    GetPutBody(w, o, suffix, s);
    ShownIsLoadedReversed(w, j);
    LoadedFlag(w, j, o.umountAfter);
  }

  lemma LoadedFlag(w: Wire, j: Job, u: bool)
    requires Loaded(w, w.umountAfter) == Reversed(j)
    ensures Loaded(w, u) == Reversed(j).(umountAfter := u)
  {}

  // ----- Truncated streams -----

  /** The input followed by more bytes. */
  function More(i: Input, y: seq<Byte>): Input {
    Input(i.rest + y, i.status)
  }

  // A read that ends without error reads the same when more bytes follow.

  lemma MoreU32(i: Input, y: seq<Byte>)
    requires GetU32(i).1.status == Ok
    ensures i.status == Ok && GetU32(More(i, y)) == (GetU32(i).0, More(GetU32(i).1, y))
  {
    assert (i.rest + y)[4..] == i.rest[4..] + y;
  }

  lemma MoreI32(i: Input, y: seq<Byte>)
    requires GetI32(i).1.status == Ok
    ensures i.status == Ok && GetI32(More(i, y)) == (GetI32(i).0, More(GetI32(i).1, y))
  {
    MoreU32(i, y);
  }

  lemma MoreBool(i: Input, y: seq<Byte>)
    requires GetBool(i).1.status == Ok
    ensures i.status == Ok && GetBool(More(i, y)) == (GetBool(i).0, More(GetBool(i).1, y))
  {
    assert (i.rest + y)[1..] == i.rest[1..] + y;
  }

  lemma MoreText(i: Input, y: seq<Byte>)
    requires GetText(i).1.status == Ok
    ensures i.status == Ok && GetText(More(i, y)) == (GetText(i).0, More(GetText(i).1, y))
  {
    MoreU32(i, y);
    var (n, i1) := GetU32(i);
    if n != NULL_MARK && n != 0 {
      assert (i1.rest + y)[..n] == i1.rest[..n] && (i1.rest + y)[n..] == i1.rest[n..] + y;
    }
  }

  lemma {:induction false} MorePairs(n: int, h: Dirs, i: Input, y: seq<Byte>)
    requires GetPairs(n, h, i).1.status == Ok
    ensures i.status == Ok && GetPairs(n, h, More(i, y)) == (GetPairs(n, h, i).0, More(GetPairs(n, h, i).1, y))
    decreases n
  {
    if n > 0 {
      var (key, i1) := GetText(i);
      var (value, i2) := GetText(i1);
      MorePairs(n - 1, Insert(h, key, value), i2, y);
      MoreText(i1, y);
      MoreText(i, y);
    }
  }

  lemma MoreDirs(i: Input, y: seq<Byte>)
    requires GetDirs(i).1.status == Ok
    ensures i.status == Ok && GetDirs(More(i, y)) == (GetDirs(i).0, More(GetDirs(i).1, y))
  {
    var (n, i1) := GetI32(i);
    MorePairs(n, map[], i1, y);
    MoreI32(i, y);
  }

  lemma {:induction false} MoreTextList(n: nat, acc: seq<Text>, i: Input, y: seq<Byte>)
    requires GetTextList(n, acc, i).1.status == Ok
    ensures i.status == Ok
    ensures GetTextList(n, acc, More(i, y)) == (GetTextList(n, acc, i).0, More(GetTextList(n, acc, i).1, y))
  {
    if n > 0 {
      var (t, i1) := GetText(i);
      if i1.status == Ok {
        MoreTextList(n - 1, acc + [t], i1, y);
        MoreText(i, y);
      }
    }
  }

  lemma MoreTexts(i: Input, y: seq<Byte>)
    requires GetTexts(i).1.status == Ok
    ensures i.status == Ok && GetTexts(More(i, y)) == (GetTexts(i).0, More(GetTexts(i).1, y))
  {
    var (n, i1) := GetU32(Input(i.rest, Ok));
    if !LIMITS_LISTS || n != NULL_MARK {
      MoreTextList(n, [], i1, y);
    }
    MoreU32(Input(i.rest, Ok), y);
  }

  lemma {:induction false} MoreTargets(n: int, acc: seq<Target>, i: Input, y: seq<Byte>)
    requires GetTargets(n, acc, i).1.status == Ok
    ensures i.status == Ok
    ensures GetTargets(n, acc, More(i, y)) == (GetTargets(n, acc, i).0, More(GetTargets(n, acc, i).1, y))
    decreases n
  {
    if n > 0 {
      var (server, i1) := GetText(i);
      var (dirs, i2) := GetDirs(i1);
      MoreTargets(n - 1, acc + [Target(server, dirs)], i2, y);
      MoreDirs(i1, y);
      MoreText(i, y);
    }
  }

  lemma MoreIdentity(o: Job, i: Input, y: seq<Byte>)
    ensures GetIdentity(o, i).1.status == Ok ==>
      i.status == Ok && GetIdentity(o, More(i, y)) == (GetIdentity(o, i).0, More(GetIdentity(o, i).1, y))
  {
    if GetIdentity(o, i).1.status != Ok {
      return;
    }
    var i1 := GetText(i).1;
    var i2 := GetText(i1).1;
    var i3 := GetText(i2).1;
    MoreDirs(i3, y);
    MoreText(i2, y);
    MoreText(i1, y);
    MoreText(i, y);
  }

  lemma MoreOptions(o: Job, i: Input, y: seq<Byte>)
    ensures GetOptions(o, i).1.status == Ok ==>
      i.status == Ok && GetOptions(o, More(i, y)) == (GetOptions(o, i).0, More(GetOptions(o, i).1, y))
  {
    if GetOptions(o, i).1.status != Ok {
      return;
    }
    var i1 := GetBool(i).1;
    var i2 := GetBool(i1).1;
    var i3 := GetBool(i2).1;
    var i4 := GetBool(i3).1;
    var i5 := GetBool(i4).1;
    var i6 := GetText(i5).1;
    var i7 := GetText(i6).1;
    MoreText(i7, y);
    MoreText(i6, y);
    MoreText(i5, y);
    MoreBool(i4, y);
    MoreBool(i3, y);
    MoreBool(i2, y);
    MoreBool(i1, y);
    MoreBool(i, y);
  }

  lemma MoreSchedule(o: Job, i: Input, y: seq<Byte>)
    ensures GetSchedule(o, i).1.status == Ok ==>
      i.status == Ok && GetSchedule(o, More(i, y)) == (GetSchedule(o, i).0, More(GetSchedule(o, i).1, y))
  {
    if GetSchedule(o, i).1.status != Ok {
      return;
    }
    var i1 := GetI32(i).1;
    var i2 := GetText(i1).1;
    var i3 := GetI32(i2).1;
    var i4 := GetI32(i3).1;
    MoreText(i4, y);
    MoreI32(i3, y);
    MoreI32(i2, y);
    MoreText(i1, y);
    MoreI32(i, y);
  }

  lemma MorePbs(o: Job, i: Input, y: seq<Byte>)
    ensures GetPbs(o, i).1.status == Ok ==>
      i.status == Ok && GetPbs(o, More(i, y)) == (GetPbs(o, i).0, More(GetPbs(o, i).1, y))
  {
    if GetPbs(o, i).1.status != Ok {
      return;
    }
    var i1 := GetBool(i).1;
    var i2 := GetText(i1).1;
    var i3 := GetText(i2).1;
    var i4 := GetTexts(i3).1;
    MoreText(i4, y);
    MoreTexts(i3, y);
    MoreText(i2, y);
    MoreText(i1, y);
    MoreBool(i, y);
  }

  lemma MoreSsh(o: Job, i: Input, y: seq<Byte>)
    ensures GetSsh(o, i).1.status == Ok ==>
      i.status == Ok && GetSsh(o, More(i, y)) == (GetSsh(o, i).0, More(GetSsh(o, i).1, y))
  {
    if GetSsh(o, i).1.status != Ok {
      return;
    }
    var i1 := GetBool(i).1;
    var (n, i2) := GetI32(i1);
    MoreTargets(n, [], i2, y);
    MoreI32(i1, y);
    MoreBool(i, y);
  }

  lemma MoreBody(o: Job, i: Input, y: seq<Byte>)
    ensures GetBody(o, i).1.status == Ok ==>
      i.status == Ok && GetBody(o, More(i, y)) == (GetBody(o, i).0, More(GetBody(o, i).1, y))
  {
    if GetBody(o, i).1.status != Ok {
      return;
    }
    var (o1, i1) := GetIdentity(o, i);
    var (o2, i2) := GetOptions(o1, i1);
    var (o3, i3) := GetSchedule(o2, i2);
    var (o4, i4) := GetPbs(o3, i3);
    MoreSsh(o4, i4, y);
    MorePbs(o3, i3, y);
    MoreSchedule(o2, i2, y);
    MoreOptions(o1, i1, y);
    MoreIdentity(o, i, y);
  }

  // ----- What errors yield -----

  /** A number or a flag of which bytes are missing reads as 0 or false, consumes the rest and sets the status; an
      earlier error stays. */
  lemma MissingBytes(i: Input)
    ensures
      var left := Input([], if i.status == Ok then ReadPastEnd else i.status);
      && (|i.rest| < 4 ==> GetU32(i) == (0, left) && GetI32(i) == (0, left))
      && (i.rest == [] ==> GetBool(i) == (false, left))
  {}

  /** A string that cannot be read is empty: an odd byte count is reported as corrupt data, too few bytes as the end
      of the stream. */
  lemma BadText(i: Input)
    requires i.status == Ok
    ensures
      var (n, i1) := GetU32(i);
      && (GetText(i).1.status != Ok ==> GetText(i).0 == [])
      && (|i.rest| >= 4 && n != NULL_MARK && n % 2 == 1 ==> GetText(i) == ([], Input(i.rest[4..], ReadCorruptData)))
      && (|i.rest| >= 4 && n != NULL_MARK && n % 2 == 0 && n > |i.rest| - 4 ==>
            GetText(i) == ([], Input([], ReadPastEnd)))
  {}

  lemma {:induction false} BadListIsEmpty(n: nat, acc: seq<Text>, i: Input)
    requires i.status == Ok
    ensures GetTextList(n, acc, i).1.status != Ok ==> GetTextList(n, acc, i).0 == []
  {
    if n > 0 {
      var (t, i1) := GetText(i);
      if i1.status == Ok {
        BadListIsEmpty(n - 1, acc + [t], i1);
      }
    }
  }

  /** A list of strings with an unreadable element is empty as a whole; an error that was there before stays. */
  lemma BadTexts(i: Input)
    ensures GetTexts(i).1.status != Ok && i.status == Ok ==> GetTexts(i).0 == []
    ensures i.status != Ok ==> GetTexts(i).1.status == i.status
  {
    var (n, i1) := GetU32(Input(i.rest, Ok));
    if i1.status == Ok {
      BadListIsEmpty(n, [], i1);
    }
  }

  /** A written job cut short anywhere leaves the stream in an error state, with one exception: a cut
      just before the trailing flag, which looks like a complete job of the old format. */
  lemma TruncationIsReported(w: Wire, j: Job, o: Job, n: nat)
    requires Fits(w) && Shows(w, j)
    ensures n < |PutJob(w, [])| ==>
      (GetJob(o, Input(PutJob(w, [])[..n], Ok)).1.status == Ok <==> n == |PutJob(w, [])| - 1)
  {
    hide GetBody, PutOldJob, Fits, Shows;
    if n >= |PutJob(w, [])| {
      return;
    }
    var bytes := PutJob(w, []);
    var flag := PutBool(w.umountAfter, []);
    GetPutBody(w, o, flag, Ok);
    var cut := Input(bytes[..n], Ok);
    assert bytes[..n] + bytes[n..] == bytes;
    if GetBody(o, cut).1.status == Ok {
      MoreBody(o, cut, bytes[n..]);
      assert GetBody(o, cut).1.rest + bytes[n..] == flag;
      assert |flag| == 1 && |bytes[n..]| == |bytes| - n;
      assert GetBody(o, cut).1.rest == [];
    }
    if n == |bytes| - 1 {
      OldJobThenFlag(w, flag);
      assert bytes[..n] == PutOldJob(w, []);
      GetPutBody(w, o, [], Ok);
    }
  }

  /** The old format is what precedes the flag. */
  lemma OldJobThenFlag(w: Wire, tail: seq<Byte>)
    requires Fits(w)
    ensures PutOldJob(w, tail) == PutOldJob(w, []) + tail
  {
    PutSshTail(w, tail);
    PutPbsTail(w, PutSsh(w, []), tail);
    PutScheduleTail(w, PutPbs(w, PutSsh(w, [])), tail);
    PutOptionsTail(w, PutSchedule(w, PutPbs(w, PutSsh(w, []))), tail);
    PutIdentityTail(w, PutOptions(w, PutSchedule(w, PutPbs(w, PutSsh(w, [])))), tail);
  }

  // Each `Put...` only prepends to its tail.

  lemma PutTextTail(s: QStr, a: seq<Byte>, b: seq<Byte>)
    requires TextFits(s)
    ensures PutText(s, a + b) == PutText(s, a) + b
  {}

  lemma PutU32Tail(n: U32, a: seq<Byte>, b: seq<Byte>)
    ensures PutU32(n, a + b) == PutU32(n, a) + b
  {}

  lemma PutBoolTail(x: bool, a: seq<Byte>, b: seq<Byte>)
    ensures PutBool(x, a + b) == PutBool(x, a) + b
  {}

  lemma {:induction false} PutPairsTail(ps: seq<(QStr, QStr)>, a: seq<Byte>, b: seq<Byte>)
    requires PairsFit(ps)
    ensures PutPairs(ps, a + b) == PutPairs(ps, a) + b
    decreases |ps|
  {
    if ps != [] {
      PutPairsTail(ps[1..], a, b);
      PutTextTail(ps[0].1, PutPairs(ps[1..], a), b);
      PutTextTail(ps[0].0, PutText(ps[0].1, PutPairs(ps[1..], a)), b);
    }
  }

  lemma PutDirsTail(ps: seq<(QStr, QStr)>, a: seq<Byte>, b: seq<Byte>)
    requires PairsFit(ps)
    ensures PutDirs(ps, a + b) == PutDirs(ps, a) + b
  {
    PutPairsTail(ps, a, b);
    PutU32Tail(Unsigned(|ps|), PutPairs(ps, a), b);
  }

  lemma {:induction false} PutTextsTail(ts: seq<QStr>, a: seq<Byte>, b: seq<Byte>)
    requires TextsFit(ts)
    ensures PutTexts(ts, a + b) == PutTexts(ts, a) + b
  {
    if ts != [] {
      PutTextsTail(ts[1..], a, b);
      PutTextTail(ts[0], PutTexts(ts[1..], a), b);
    }
  }

  lemma {:induction false} PutTargetsTail(ts: seq<WireTarget>, a: seq<Byte>, b: seq<Byte>)
    requires TargetsFit(ts)
    ensures PutTargets(ts, a + b) == PutTargets(ts, a) + b
  {
    if ts != [] {
      PutTargetsTail(ts[1..], a, b);
      PutDirsTail(ts[0].dirs, PutTargets(ts[1..], a), b);
      PutTextTail(ts[0].server, PutDirs(ts[0].dirs, PutTargets(ts[1..], a)), b);
    }
  }

  lemma PutIdentityTail(w: Wire, a: seq<Byte>, b: seq<Byte>)
    requires Fits(w)
    ensures PutIdentity(w, a + b) == PutIdentity(w, a) + b
  {
    PutDirsTail(w.backupdirs, a, b);
    var t3 := PutDirs(w.backupdirs, a);
    PutTextTail(w.partitionUuid, t3, b);
    PutTextTail(w.device, PutText(w.partitionUuid, t3), b);
    PutTextTail(w.name, PutText(w.device, PutText(w.partitionUuid, t3)), b);
  }

  lemma PutOptionsTail(w: Wire, a: seq<Byte>, b: seq<Byte>)
    requires Fits(w)
    ensures PutOptions(w, a + b) == PutOptions(w, a) + b
  {
    PutTextTail(w.scriptAfter, a, b);
    var t7 := PutText(w.scriptAfter, a);
    PutTextTail(w.scriptBefore, t7, b);
    var t6 := PutText(w.scriptBefore, t7);
    PutTextTail(w.notifyRecipients, t6, b);
    var t5 := PutText(w.notifyRecipients, t6);
    PutBoolTail(w.notify, t5, b);
    var t4 := PutBool(w.notify, t5);
    PutBoolTail(w.compareChecksum, t4, b);
    var t3 := PutBool(w.compareChecksum, t4);
    PutBoolTail(w.saveLog, t3, b);
    var t2 := PutBool(w.saveLog, t3);
    PutBoolTail(w.startOnHotplug, t2, b);
    PutBoolTail(w.deleteAdditional, PutBool(w.startOnHotplug, t2), b);
  }

  lemma PutScheduleTail(w: Wire, a: seq<Byte>, b: seq<Byte>)
    requires Fits(w)
    ensures PutSchedule(w, a + b) == PutSchedule(w, a) + b
  {
    PutTextTail(w.luksFile, a, b);
    var t4 := PutText(w.luksFile, a);
    PutU32Tail(Unsigned(w.luksType), t4, b);
    var t3 := PutI32(w.luksType, t4);
    PutU32Tail(Unsigned(w.intervalDay), t3, b);
    var t2 := PutI32(w.intervalDay, t3);
    PutTextTail(w.intervalTime, t2, b);
    PutU32Tail(Unsigned(w.intervalType), PutText(w.intervalTime, t2), b);
  }

  lemma PutPbsTail(w: Wire, a: seq<Byte>, b: seq<Byte>)
    requires Fits(w)
    ensures PutPbs(w, a + b) == PutPbs(w, a) + b
  {
    PutTextTail(w.pbsDest, a, b);
    var t4 := PutText(w.pbsDest, a);
    PutTextsTail(w.pbsIds, t4, b);
    PutU32Tail(|w.pbsIds|, PutTexts(w.pbsIds, t4), b);
    var t3 := PutU32(|w.pbsIds|, PutTexts(w.pbsIds, t4));
    PutTextTail(w.pbsStorage, t3, b);
    PutTextTail(w.pbsServer, PutText(w.pbsStorage, t3), b);
    PutBoolTail(w.pbs, PutText(w.pbsServer, PutText(w.pbsStorage, t3)), b);
  }

  lemma PutSshTail(w: Wire, b: seq<Byte>)
    requires Fits(w)
    ensures PutSsh(w, b) == PutSsh(w, []) + b
  {
    assert [] + b == b;
    PutTargetsTail(w.sshTargets, [], b);
    var t := PutTargets(w.sshTargets, []);
    PutU32Tail(Unsigned(|w.sshTargets|), t, b);
    PutBoolTail(w.ssh, PutI32(|w.sshTargets|, t), b);
  }
}
