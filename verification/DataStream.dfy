/** The stream operators of a job as they run: a stream with a read position, counted loops, and a
    job object that is filled field by field. */
module DataStreams {
  import opened MultiHashes
  import opened Jobs
  import opened Codec
  import opened CodecTheorems

  /** A job object that `operator>>` fills in place. */
  class JobObject {
    var job: Job

    constructor (j: Job)
      ensures job == j
    {
      job := j;
    }
  }

  // ----- The form in which a writer meets a job: its own iteration orders, and empty strings that may
  // or may not be null -----

  method ViewText(t: Text) returns (q: QStr)
    ensures q.Value() == t
  {
    var isNull: bool := *;
    q := if t == [] && isNull then Null else Chars(t);
  }

  method ViewTexts(ts: seq<Text>) returns (qs: seq<QStr>)
    ensures TextValues(qs) == ts
  {
    qs := [];
    for i := 0 to |ts|
      invariant TextValues(qs) == ts[..i]
    {
      var q := ViewText(ts[i]);
      qs := qs + [q];
    }
  }

  method ViewDirs(h: Dirs) returns (ps: seq<(QStr, QStr)>)
    ensures Lists(PairValues(ps), h)
  {
    var pairs := Iterate(h);
    ps := [];
    for i := 0 to |pairs|
      invariant PairValues(ps) == pairs[..i]
    {
      var key := ViewText(pairs[i].0);
      var value := ViewText(pairs[i].1);
      ps := ps + [(key, value)];
    }
    assert PairValues(ps) == pairs;
  }

  method ViewTargets(ts: seq<Target>) returns (ws: seq<WireTarget>)
    ensures |ws| == |ts| && forall i :: 0 <= i < |ts| ==> ShowsTarget(ws[i], ts[i])
  {
    ws := [];
    for i := 0 to |ts|
      invariant |ws| == i && forall k :: 0 <= k < i ==> ShowsTarget(ws[k], ts[k])
    {
      var server := ViewText(ts[i].server);
      var dirs := ViewDirs(ts[i].dirs);
      ws := ws + [Target(server, dirs)];
    }
  }

  /** Every job has a written form. */
  method ViewJob(j: Job) returns (w: Wire)
    ensures Shows(w, j)
  {
    hide Lists, ShowsTarget;
    var name := ViewText(j.name);
    var device := ViewText(j.device);
    var uuid := ViewText(j.partitionUuid);
    var dirs := ViewDirs(j.backupdirs);
    var recipients := ViewText(j.notifyRecipients);
    var before := ViewText(j.scriptBefore);
    var after := ViewText(j.scriptAfter);
    var time := ViewText(j.intervalTime);
    var luks := ViewText(j.luksFile);
    var server := ViewText(j.pbsServer);
    var storage := ViewText(j.pbsStorage);
    var ids := ViewTexts(j.pbsIds);
    var dest := ViewText(j.pbsDest);
    var targets := ViewTargets(j.sshTargets);
    w := Job(name, device, uuid, dirs,
             j.deleteAdditional, j.startOnHotplug, j.saveLog, j.compareChecksum, j.umountAfter,
             j.notify, recipients, before, after, j.intervalType, time, j.intervalDay, j.luksType, luks,
             j.pbs, server, storage, ids, dest, j.ssh, targets);
  }

  class DataStream {
    var data: seq<Byte>
    var pos: nat
    var status: Status

    ghost predicate Valid()
      reads this
    {
      pos <= |data|
    }

    /** What the reader still has in front of it. */
    ghost function In(): Input
      requires Valid()
      reads this
    {
      Input(data[pos..], status)
    }

    constructor (bytes: seq<Byte>)
      ensures Valid() && In() == Input(bytes, Ok) && data == bytes && pos == 0
    {
      data, pos, status := bytes, 0, Ok;
    }

    // ----- Writing. What a call appends is what its `Put` function puts before any tail. -----

    method Append(chunk: seq<Byte>)
      modifies this`data
      ensures forall tail {:trigger data + tail} :: old(data) + (chunk + tail) == data + tail
      ensures data == old(data) + chunk
    {
      data := data + chunk;
      forall tail
        ensures old(data) + (chunk + tail) == data + tail
      {
        assert (old(data) + chunk) + tail == old(data) + (chunk + tail);
      }
    }

    method WriteU32(n: U32)
      modifies this`data
      ensures forall tail {:trigger PutU32(n, tail)} :: old(data) + PutU32(n, tail) == data + tail
    {
      Append(Be32(n));
    }

    method WriteI32(n: Int32)
      modifies this`data
      ensures forall tail {:trigger PutI32(n, tail)} :: old(data) + PutI32(n, tail) == data + tail
    {
      WriteU32(Unsigned(n));
    }

    method WriteBool(b: bool)
      modifies this`data
      ensures forall tail {:trigger PutBool(b, tail)} :: old(data) + PutBool(b, tail) == data + tail
    {
      Append([if b then 1 else 0]);
    }

    method WriteText(s: QStr)
      requires TextFits(s)
      modifies this`data
      ensures forall tail {:trigger PutText(s, tail)} :: old(data) + PutText(s, tail) == data + tail
    {
      Append(TextBytes(s));
    }

    method WriteDirs(ps: seq<(QStr, QStr)>)
      requires PairsFit(ps)
      modifies this`data
      ensures forall tail {:trigger PutDirs(ps, tail)} :: old(data) + PutDirs(ps, tail) == data + tail
    {
      WriteI32(|ps|);
      ghost var start := data;
      for i := 0 to |ps|
        invariant forall tail {:trigger PutPairs(ps, tail)} ::
          start + PutPairs(ps, tail) == data + PutPairs(ps[i..], tail)
      {
        assert ps[i..][0] == ps[i] && ps[i..][1..] == ps[i + 1..];
        WriteText(ps[i].0);
        WriteText(ps[i].1);
      }
    }

    method WriteTexts(ts: seq<QStr>)
      requires TextsFit(ts)
      modifies this`data
      ensures forall tail {:trigger PutU32(|ts|, PutTexts(ts, tail))} ::
        old(data) + PutU32(|ts|, PutTexts(ts, tail)) == data + tail
    {
      WriteU32(|ts|);
      ghost var start := data;
      for i := 0 to |ts|
        invariant forall tail {:trigger PutTexts(ts, tail)} ::
          start + PutTexts(ts, tail) == data + PutTexts(ts[i..], tail)
      {
        assert ts[i..][0] == ts[i] && ts[i..][1..] == ts[i + 1..];
        WriteText(ts[i]);
      }
    }

    method WriteTargets(ts: seq<WireTarget>)
      requires TargetsFit(ts)
      modifies this`data
      ensures forall tail {:trigger PutI32(|ts|, PutTargets(ts, tail))} ::
        old(data) + PutI32(|ts|, PutTargets(ts, tail)) == data + tail
    {
      WriteI32(|ts|);
      ghost var start := data;
      for i := 0 to |ts|
        invariant forall tail {:trigger PutTargets(ts, tail)} ::
          start + PutTargets(ts, tail) == data + PutTargets(ts[i..], tail)
      {
        assert ts[i..][0] == ts[i] && ts[i..][1..] == ts[i + 1..];
        WriteText(ts[i].server);
        WriteDirs(ts[i].dirs);
      }
    }

    method WriteIdentity(w: Wire)
      requires Fits(w)
      modifies this`data
      ensures forall tail {:trigger PutIdentity(w, tail)} :: old(data) + PutIdentity(w, tail) == data + tail
    {
      WriteText(w.name);
      WriteText(w.device);
      WriteText(w.partitionUuid);
      WriteDirs(w.backupdirs);
    }

    method WriteOptions(w: Wire)
      requires Fits(w)
      modifies this`data
      ensures forall tail {:trigger PutOptions(w, tail)} :: old(data) + PutOptions(w, tail) == data + tail
    {
      WriteBool(w.deleteAdditional);
      WriteBool(w.startOnHotplug);
      WriteBool(w.saveLog);
      WriteBool(w.compareChecksum);
      WriteBool(w.notify);
      WriteText(w.notifyRecipients);
      WriteText(w.scriptBefore);
      WriteText(w.scriptAfter);
    }

    method WriteSchedule(w: Wire)
      requires Fits(w)
      modifies this`data
      ensures forall tail {:trigger PutSchedule(w, tail)} :: old(data) + PutSchedule(w, tail) == data + tail
    {
      WriteI32(w.intervalType);
      WriteText(w.intervalTime);
      WriteI32(w.intervalDay);
      WriteI32(w.luksType);
      WriteText(w.luksFile);
    }

    method WritePbs(w: Wire)
      requires Fits(w)
      modifies this`data
      ensures forall tail {:trigger PutPbs(w, tail)} :: old(data) + PutPbs(w, tail) == data + tail
    {
      WriteBool(w.pbs);
      WriteText(w.pbsServer);
      WriteText(w.pbsStorage);
      WriteTexts(w.pbsIds);
      WriteText(w.pbsDest);
    }

    method WriteSsh(w: Wire)
      requires Fits(w)
      modifies this`data
      ensures forall tail {:trigger PutSsh(w, tail)} :: old(data) + PutSsh(w, tail) == data + tail
    {
      WriteBool(w.ssh);
      WriteTargets(w.sshTargets);
    }

    /** `operator<<`: one written form of the job is appended, and nothing else changes. */
    method WriteJob(obj: JobObject) returns (ghost w: Wire)
      requires SizesFit(obj.job)
      modifies this`data
      ensures Shows(w, obj.job) && Fits(w)
      ensures data == old(data) + PutJob(w, [])
    {
      hide Shows, Fits, SizesFit;
      var view := ViewJob(obj.job);
      w := view;
      ShownFits(view, obj.job);
      WriteView(view);
    }

    method WriteView(w: Wire)
      requires Fits(w)
      modifies this`data
      ensures data == old(data) + PutJob(w, [])
      ensures forall tail {:trigger PutJob(w, tail)} :: old(data) + PutJob(w, tail) == data + tail
    {
      WriteIdentity(w);
      WriteOptions(w);
      WriteSchedule(w);
      WritePbs(w);
      WriteSsh(w);
      WriteBool(w.umountAfter);
      assert old(data) + PutJob(w, []) == data + [];
    }

    // ----- Reading moves `pos` and may set `status` -----

    method Fail(s: Status)
      requires Valid() && s != Ok
      modifies this`status
      ensures Valid() && In() == old(In()).Failed(s)
    {
      if status == Ok {
        status := s;
      }
    }

    /** Qt's `readBlock` consumes whatever is left even when that is too little. */
    method Exhaust()
      requires Valid()
      modifies this`pos, this`status
      ensures Valid() && In() == old(In()).Exhausted()
    {
      pos := |data|;
      Fail(ReadPastEnd);
    }

    method ReadU32() returns (n: U32)
      requires Valid()
      modifies this`pos, this`status
      ensures Valid() && (n, In()) == GetU32(old(In()))
    {
      if pos + 4 <= |data| {
        var a: int, b: int, c: int, d: int := data[pos], data[pos + 1], data[pos + 2], data[pos + 3];
        n := 0x100_0000 * a + 0x1_0000 * b + 0x100 * c + d;
        assert data[pos..][4..] == data[pos + 4..];
        pos := pos + 4;
      } else {
        n := 0;
        Exhaust();
      }
    }

    method ReadI32() returns (n: Int32)
      requires Valid()
      modifies this`pos, this`status
      ensures Valid() && (n, In()) == GetI32(old(In()))
    {
      var v := ReadU32();
      var u: int := v;
      n := if u >= 0x8000_0000 then u - 0x1_0000_0000 else u;
    }

    method ReadBool() returns (b: bool)
      requires Valid()
      modifies this`pos, this`status
      ensures Valid() && (b, In()) == GetBool(old(In()))
    {
      if pos < |data| {
        b := data[pos] != 0;
        assert data[pos..][1..] == data[pos + 1..];
        pos := pos + 1;
      } else {
        b := false;
        Exhaust();
      }
    }

    method ReadText() returns (t: Text)
      requires Valid()
      modifies this`pos, this`status
      ensures Valid() && (t, In()) == GetText(old(In()))
    {
      var n := ReadU32();
      t := [];
      if n == NULL_MARK || n == 0 {
        return;
      }
      if n % 2 == 1 {
        Fail(ReadCorruptData);
      } else if n > |data| - pos {
        Exhaust();
      } else {
        t := Units(data[pos..pos + n]);
        assert data[pos..][..n] == data[pos..pos + n] && data[pos..][n..] == data[pos + n..];
        pos := pos + n;
      }
    }

    method ReadDirs() returns (h: Dirs)
      requires Valid()
      modifies this`pos, this`status
      ensures Valid() && (h, In()) == GetDirs(old(In()))
    {
      hide GetText, GetU32, GetI32;
      h := map[];
      var n := ReadI32();
      var count: int := n;
      var i := 0;
      while i < count
        invariant Valid() && GetPairs(count - i, h, In()) == GetDirs(old(In()))
      {
        var key := ReadText();
        var value := ReadText();
        h := Insert(h, key, value);
        i := i + 1;
      }
    }

    method ReadTexts() returns (ts: seq<Text>)
      requires Valid()
      modifies this`pos, this`status
      ensures Valid() && (ts, In()) == GetTexts(old(In()))
    {
      hide GetText, GetU32;
      var saved := status;
      status := Ok;
      ts := [];
      var count: nat := ReadU32();
      if LIMITS_LISTS && count == NULL_MARK {
        Fail(SizeLimitExceeded);
        count := 0;
      }
      ghost var i0 := In();
      var i := 0;
      while i < count
        invariant Valid() && i <= count && GetTextList(count - i, ts, In()) == GetTextList(count, [], i0)
      {
        var t := ReadText();
        if status != Ok {
          ts := [];
          break;
        }
        ts := ts + [t];
        i := i + 1;
      }
      if saved != Ok {
        status := saved;
      }
    }

    method ReadTargets() returns (ts: seq<Target>)
      requires Valid()
      modifies this`pos, this`status
      ensures Valid()
      ensures var (n, i1) := GetI32(old(In())); (ts, In()) == GetTargets(n, [], i1)
    {
      hide GetText, GetDirs, GetU32, GetI32;
      var n := ReadI32();
      var count: int := n;
      ghost var i1 := In();
      ts := [];
      var i := 0;
      while i < count
        invariant Valid() && GetTargets(count - i, ts, In()) == GetTargets(count, [], i1)
      {
        var server := ReadText();
        var dirs := ReadDirs();
        ts := ts + [Target(server, dirs)];
        i := i + 1;
      }
    }

    method ReadIdentity(obj: JobObject)
      requires Valid()
      modifies this`pos, this`status, obj
      ensures Valid() && (obj.job, In()) == GetIdentity(old(obj.job), old(In()))
    {
      hide GetText, GetBool, GetI32, GetU32, GetDirs, GetTexts, GetTargets;
      var name := ReadText();
      obj.job := obj.job.(name := name);
      var device := ReadText();
      obj.job := obj.job.(device := device);
      var partitionUuid := ReadText();
      obj.job := obj.job.(partitionUuid := partitionUuid);
      var backupdirs := ReadDirs();
      obj.job := obj.job.(backupdirs := backupdirs);
    }

    method ReadFlags(obj: JobObject)
      requires Valid()
      modifies this`pos, this`status, obj
      ensures Valid() && (obj.job, In()) == GetFlags(old(obj.job), old(In()))
    {
      hide GetText, GetBool, GetI32, GetU32, GetDirs, GetTexts, GetTargets;
      var deleteAdditional := ReadBool();
      obj.job := obj.job.(deleteAdditional := deleteAdditional);
      var startOnHotplug := ReadBool();
      obj.job := obj.job.(startOnHotplug := startOnHotplug);
      var saveLog := ReadBool();
      obj.job := obj.job.(saveLog := saveLog);
      var compareChecksum := ReadBool();
      obj.job := obj.job.(compareChecksum := compareChecksum);
    }

    method ReadOptions(obj: JobObject)
      requires Valid()
      modifies this`pos, this`status, obj
      ensures Valid() && (obj.job, In()) == GetOptions(old(obj.job), old(In()))
    {
      hide GetText, GetBool, GetI32, GetU32, GetDirs, GetTexts, GetTargets, GetFlags;
      ReadFlags(obj);
      var notify := ReadBool();
      obj.job := obj.job.(notify := notify);
      var notifyRecipients := ReadText();
      obj.job := obj.job.(notifyRecipients := notifyRecipients);
      var scriptBefore := ReadText();
      obj.job := obj.job.(scriptBefore := scriptBefore);
      var scriptAfter := ReadText();
      obj.job := obj.job.(scriptAfter := scriptAfter);
    }

    method ReadSchedule(obj: JobObject)
      requires Valid()
      modifies this`pos, this`status, obj
      ensures Valid() && (obj.job, In()) == GetSchedule(old(obj.job), old(In()))
    {
      hide GetText, GetBool, GetI32, GetU32, GetDirs, GetTexts, GetTargets;
      var intervalType := ReadI32();
      obj.job := obj.job.(intervalType := intervalType);
      var intervalTime := ReadText();
      obj.job := obj.job.(intervalTime := intervalTime);
      var intervalDay := ReadI32();
      obj.job := obj.job.(intervalDay := intervalDay);
      var luksType := ReadI32();
      obj.job := obj.job.(luksType := luksType);
      var luksFile := ReadText();
      obj.job := obj.job.(luksFile := luksFile);
    }

    method ReadPbs(obj: JobObject)
      requires Valid()
      modifies this`pos, this`status, obj
      ensures Valid() && (obj.job, In()) == GetPbs(old(obj.job), old(In()))
    {
      hide GetText, GetBool, GetI32, GetU32, GetDirs, GetTexts, GetTargets;
      var pbs := ReadBool();
      obj.job := obj.job.(pbs := pbs);
      var pbsServer := ReadText();
      obj.job := obj.job.(pbsServer := pbsServer);
      var pbsStorage := ReadText();
      obj.job := obj.job.(pbsStorage := pbsStorage);
      var pbsIds := ReadTexts();
      obj.job := obj.job.(pbsIds := pbsIds);
      var pbsDest := ReadText();
      obj.job := obj.job.(pbsDest := pbsDest);
    }

    method ReadSsh(obj: JobObject)
      requires Valid()
      modifies this`pos, this`status, obj
      ensures Valid() && (obj.job, In()) == GetSsh(old(obj.job), old(In()))
    {
      hide GetText, GetBool, GetI32, GetU32, GetDirs, GetTexts, GetTargets;
      var ssh := ReadBool();
      obj.job := obj.job.(ssh := ssh);
      var sshTargets := ReadTargets();
      obj.job := obj.job.(sshTargets := sshTargets);
    }

    /** `operator>>`: `obj` and the stream change as the decoding function says, on every input. */
    method ReadJob(obj: JobObject)
      requires Valid()
      modifies this`pos, this`status, obj
      ensures Valid() && (obj.job, In()) == GetJob(old(obj.job), old(In()))
    {
      hide GetIdentity, GetOptions, GetSchedule, GetPbs, GetSsh, GetBool;
      ReadIdentity(obj);
      ReadOptions(obj);
      ReadSchedule(obj);
      ReadPbs(obj);
      ReadSsh(obj);
      if pos < |data| {
        var u := ReadBool();
        obj.job := obj.job.(umountAfter := u);
      }
    }
  }
}
