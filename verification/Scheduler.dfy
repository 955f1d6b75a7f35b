/** The scheduler's decision, and what it means over whole runs of a daemon that records each firing
    as the last run. Times are whole seconds since the epoch; local time is a fixed offset from UTC. */
module Scheduler {
  import opened Jobs
  import opened Calendar
  import opened Options
  import JobStores

  const DAY: int := 86400
  const DEFAULT_GRACE: int := 120

  datatype Config = Config(job: JobStores.Job, offset: int, grace: int)

  predicate Digit(c: char) {
    '0' <= c <= '9'
  }

  function TwoDigits(a: char, b: char): int {
    10 * (a as int - '0' as int) + (b as int - '0' as int)
  }

  /** `QTime::fromString(text, "hh:mm")`, as seconds after midnight. */
  function SlotTime(text: string): (r: Option<int>)
    ensures r.Some? ==> 0 <= r.value <= DAY - 60 && r.value % 60 == 0
  {
    if |text| == 5 && Digit(text[0]) && Digit(text[1]) && text[2] == ':' && Digit(text[3]) && Digit(text[4]) then
      var h, m := TwoDigits(text[0], text[1]), TwoDigits(text[3], text[4]);
      if h < 24 && m < 60 then Some(3600 * h + 60 * m) else None
    else None
  }

  /** A number below 100 as two digits. */
  function Two(n: int): string
    requires 0 <= n < 100
  {
    [('0' as int + n / 10) as char, ('0' as int + n % 10) as char]
  }

  /** A text is a slot exactly if it spells a time of day as `hh:mm`, and then it is that time. */
  lemma SlotTimeSpells(text: string, t: int)
    ensures SlotTime(text) == Some(t) <==>
            exists h, m :: 0 <= h < 24 && 0 <= m < 60 && text == Two(h) + ":" + Two(m) && t == 60 * (60 * h + m)
  {
    if SlotTime(text) == Some(t) {
      var h, m := TwoDigits(text[0], text[1]), TwoDigits(text[3], text[4]);
      TwoReads(text[0], text[1]);
      TwoReads(text[3], text[4]);
      assert text == Two(h) + ":" + Two(m);
    }
    if h, m :| 0 <= h < 24 && 0 <= m < 60 && text == Two(h) + ":" + Two(m) && t == 60 * (60 * h + m) {
      TwoWrites(h);
      TwoWrites(m);
      assert text[0] == Two(h)[0] && text[1] == Two(h)[1] && text[3] == Two(m)[0] && text[4] == Two(m)[1];
    }
  }

  lemma TwoReads(a: char, b: char)
    requires Digit(a) && Digit(b)
    ensures 0 <= TwoDigits(a, b) < 100 && Two(TwoDigits(a, b)) == [a, b]
  {
    var x, y := a as int - '0' as int, b as int - '0' as int;
    assert TwoDigits(a, b) / 10 == x && TwoDigits(a, b) % 10 == y;
  }

  lemma TwoWrites(n: int)
    requires 0 <= n < 100
    ensures Digit(Two(n)[0]) && Digit(Two(n)[1]) && TwoDigits(Two(n)[0], Two(n)[1]) == n
  {}

  function LocalDay(offset: int, now: int): int {
    (now + offset) / DAY
  }

  /** `shouldRun`. An interval type outside the enumeration takes no case of the switch and so behaves
      like a daily one. */
  function ShouldRun(c: Config, now: int, lastRun: int): bool {
    if c.job.intervalType == INTERVAL_NONE then false
    else
      match SlotTime(c.job.intervalTime)
      case None => false
      case Some(secs) =>
        var day := LocalDay(c.offset, now);
        if c.job.intervalType == INTERVAL_WEEKLY && Weekday(day) != c.job.intervalDay then false
        else if c.job.intervalType == INTERVAL_MONTHLY && DateOf(day).day != c.job.intervalDay then false
        else
          var slot := day * DAY + secs - c.offset;
          if now < slot || now > slot + c.grace then false else lastRun < slot
  }

  // ----- Runs -----

  /** The recorded last run after a sequence of ticks. */
  function LastRun(c: Config, last: int, ticks: seq<int>): int {
    if ticks == [] then last
    else
      var n := |ticks| - 1;
      var l := LastRun(c, last, ticks[..n]);
      if ShouldRun(c, ticks[n], l) then ticks[n] else l
  }

  predicate Fires(c: Config, last: int, ticks: seq<int>, i: nat)
    requires i < |ticks|
  {
    ShouldRun(c, ticks[i], LastRun(c, last, ticks[..i]))
  }

  /** A slot of the job falls on this local day. */
  predicate Due(c: Config, day: int) {
    && c.job.intervalType != INTERVAL_NONE
    && SlotTime(c.job.intervalTime).Some?
    && (c.job.intervalType == INTERVAL_WEEKLY ==> Weekday(day) == c.job.intervalDay)
    && (c.job.intervalType == INTERVAL_MONTHLY ==> DateOf(day).day == c.job.intervalDay)
  }

  function Slot(c: Config, day: int): int
    requires Due(c, day)
  {
    day * DAY + SlotTime(c.job.intervalTime).value - c.offset
  }

  /** A job runs exactly if it has an interval and a slot, the local date is one of its days (any, the given weekday
      counted from Monday, or the given day of the month), the local time of day lies in the grace window behind the
      slot, and the slot is later than the last run. `d` is the local date. */
  lemma ShouldRunExactly(c: Config, now: int, lastRun: int, d: Date)
    requires d.Valid() && DayCount(d) == (now + c.offset) / 86400
    ensures
      var time := (now + c.offset) % 86400;
      ShouldRun(c, now, lastRun) <==>
        && c.job.intervalType != 0
        && (c.job.intervalType == 2 ==> CivilWeekday(d) == c.job.intervalDay)
        && (c.job.intervalType == 3 ==> d.day == c.job.intervalDay)
        && SlotTime(c.job.intervalTime).Some?
        && var slot := SlotTime(c.job.intervalTime).value;
           slot <= time <= slot + c.grace && lastRun < now - (time - slot)
  {
    hide DateOf, Weekday, CivilWeekday, DayCount, SlotTime;
    DateOfIsCivil((now + c.offset) / 86400, d);
    WeekdayIsCivil((now + c.offset) / 86400);
  }

  lemma FiresInSlot(c: Config, last: int, ticks: seq<int>, i: nat)
    requires i < |ticks| && Fires(c, last, ticks, i)
    ensures
      var day := LocalDay(c.offset, ticks[i]);
      Due(c, day) && LastRun(c, last, ticks[..i]) < Slot(c, day) <= ticks[i] <= Slot(c, day) + c.grace
    ensures
      var day, d := LocalDay(c.offset, ticks[i]), DateOf(LocalDay(c.offset, ticks[i]));
      && DayCount(d) == day
      && (c.job.intervalType == INTERVAL_WEEKLY ==> CivilWeekday(d) == c.job.intervalDay)
      && (c.job.intervalType == INTERVAL_MONTHLY ==> d.day == c.job.intervalDay)
    ensures LastRun(c, last, ticks[..i + 1]) == ticks[i] > LastRun(c, last, ticks[..i])
  {
    hide DateOf, Weekday, CivilWeekday, DayCount, SlotTime;
    DateOfCounts(LocalDay(c.offset, ticks[i]));
    WeekdayIsCivil(LocalDay(c.offset, ticks[i]));
    assert ticks[..i + 1][..i] == ticks[..i];
  }

  lemma {:induction false} LastRunGrows(c: Config, last: int, ticks: seq<int>, i: nat, j: nat)
    requires i <= j <= |ticks|
    ensures LastRun(c, last, ticks[..i]) <= LastRun(c, last, ticks[..j])
    decreases j
  {
    if i < j {
      LastRunGrows(c, last, ticks, i, j - 1);
      assert ticks[..j][..j - 1] == ticks[..j - 1];
    }
  }

  lemma {:induction false} LastRunIsTick(c: Config, last: int, ticks: seq<int>, bound: int)
    requires last < bound && forall i :: 0 <= i < |ticks| ==> ticks[i] < bound
    ensures LastRun(c, last, ticks) < bound
  {
    if ticks != [] {
      LastRunIsTick(c, last, ticks[..|ticks| - 1], bound);
    }
  }

  function PeriodDays(c: Config): int {
    if c.job.intervalType == INTERVAL_WEEKLY then 7
    else if c.job.intervalType == INTERVAL_MONTHLY then 28
    else 1
  }

  /** Whatever the clock reads, even when it jumps back: of two firings the later one belongs to a later
      slot and records a later time, and they are at least the period less the grace apart. */
  lemma FiringSpacing(c: Config, last: int, ticks: seq<int>, i: nat, j: nat)
    requires i < j < |ticks| && Fires(c, last, ticks, i) && Fires(c, last, ticks, j)
    ensures
      var a, b := LocalDay(c.offset, ticks[i]), LocalDay(c.offset, ticks[j]);
      && Due(c, a) && Due(c, b)
      && b - a >= PeriodDays(c)
      && (c.job.intervalType == INTERVAL_WEEKLY ==> (b - a) % 7 == 0)
      && ticks[i] < ticks[j]
      && ticks[j] - ticks[i] >= PeriodDays(c) * DAY - c.grace
  {
    FiresInSlot(c, last, ticks, i);
    FiresInSlot(c, last, ticks, j);
    LastRunGrows(c, last, ticks, i + 1, j);
    var a, b := LocalDay(c.offset, ticks[i]), LocalDay(c.offset, ticks[j]);
    assert Slot(c, a) < Slot(c, b);
    assert a < b;
    if c.job.intervalType == INTERVAL_WEEKLY {
      SameWeekday(a, b);
    } else if c.job.intervalType == INTERVAL_MONTHLY {
      SameDayOfMonth(a, b);
    }
  }

  // ----- No slot is missed -----

  /** Ticks that never go back and are at most `gap` seconds apart. */
  predicate Steady(ticks: seq<int>, gap: int) {
    forall i {:trigger ticks[i]} :: 0 < i < |ticks| ==> ticks[i - 1] < ticks[i] <= ticks[i - 1] + gap
  }

  /** The longest tick gap that cannot jump over the slot: the grace window, cut off at midnight. */
  function Window(c: Config): int
    requires SlotTime(c.job.intervalTime).Some?
  {
    var untilMidnight := DAY - SlotTime(c.job.intervalTime).value;
    if c.grace + 1 < untilMidnight then c.grace + 1 else untilMidnight
  }

  function FirstFrom(ticks: seq<int>, t: int): (k: nat)
    requires ticks != [] && t <= ticks[|ticks| - 1]
    ensures k < |ticks| && t <= ticks[k] && forall i :: 0 <= i < k ==> ticks[i] < t
  {
    if t <= ticks[0] then 0 else 1 + FirstFrom(ticks[1..], t)
  }

  /** The slot fires once in the run: at the first tick from the slot on, and at no other tick. */
  ghost predicate FiresOnceFor(c: Config, last: int, ticks: seq<int>, day: int)
    requires Due(c, day) && ticks != [] && Slot(c, day) <= ticks[|ticks| - 1]
  {
    var k := FirstFrom(ticks, Slot(c, day));
    && Fires(c, last, ticks, k) && LocalDay(c.offset, ticks[k]) == day
    && forall i :: 0 <= i < |ticks| && i != k && Fires(c, last, ticks, i) ==> LocalDay(c.offset, ticks[i]) != day
  }

  /** A steady run over the slot of a day, which starts with the slot still open. */
  ghost predicate PassesOver(c: Config, last: int, ticks: seq<int>, gap: int, day: int)
    requires Due(c, day)
  {
    Steady(ticks, gap) && ticks != [] && ticks[0] <= Slot(c, day) <= ticks[|ticks| - 1] && last < Slot(c, day)
  }

  lemma EverySlotOnce(c: Config, last: int, ticks: seq<int>, gap: int, day: int)
    requires Due(c, day) && 0 <= c.grace && gap <= Window(c) && PassesOver(c, last, ticks, gap, day)
    ensures FiresOnceFor(c, last, ticks, day)
  {
    var slot := Slot(c, day);
    var k := FirstFrom(ticks, slot);
    LastRunIsTick(c, last, ticks[..k], slot);
    assert ticks[k] < slot + Window(c) by {
      if k > 0 {
        assert ticks[k - 1] < slot;
      }
    }
    assert LocalDay(c.offset, ticks[k]) == day;
    assert Fires(c, last, ticks, k);
    forall i | 0 <= i < |ticks| && i != k && Fires(c, last, ticks, i)
      ensures LocalDay(c.offset, ticks[i]) != day
    {
      if i < k {
        FiringSpacing(c, last, ticks, i, k);
      } else {
        FiringSpacing(c, last, ticks, k, i);
      }
    }
  }

  /** The bound on the gap is exact: with any longer gap some steady run passes over the slot. */
  lemma LongerGapMisses(c: Config, last: int, gap: int, day: int)
    requires Due(c, day) && gap > Window(c) && gap >= 1 && last < Slot(c, day)
    ensures
      var ticks := [Slot(c, day) - 1, Slot(c, day) - 1 + gap];
      && PassesOver(c, last, ticks, gap, day)
      && forall i :: 0 <= i < 2 && Fires(c, last, ticks, i) ==> LocalDay(c.offset, ticks[i]) != day
  {
    var ticks := [Slot(c, day) - 1, Slot(c, day) - 1 + gap];
    forall i | 0 <= i < 2 && Fires(c, last, ticks, i)
      ensures LocalDay(c.offset, ticks[i]) != day
    {
      FiresInSlot(c, last, ticks, i);
    }
  }

  /** Every steady run over the slot fires it once, exactly if the gap is within the window. */
  lemma WindowIsExact(c: Config, gap: int, day: int)
    requires Due(c, day) && 0 <= c.grace && gap >= 1
    ensures (forall last, ticks :: PassesOver(c, last, ticks, gap, day) ==> FiresOnceFor(c, last, ticks, day))
            <==> gap <= Window(c)
  {
    if gap <= Window(c) {
      forall last, ticks | PassesOver(c, last, ticks, gap, day)
        ensures FiresOnceFor(c, last, ticks, day)
      {
        EverySlotOnce(c, last, ticks, gap, day);
      }
    } else {
      var last, ticks := Slot(c, day) - 1, [Slot(c, day) - 1, Slot(c, day) - 1 + gap];
      LongerGapMisses(c, last, gap, day);
      assert PassesOver(c, last, ticks, gap, day) && !FiresOnceFor(c, last, ticks, day);
    }
  }

  /** With the default grace a gap of 60 seconds suffices for every slot; a gap of 61 suffices for every
      slot but 23:59. */
  lemma DefaultGrace(c: Config)
    requires SlotTime(c.job.intervalTime).Some? && c.grace == DEFAULT_GRACE
    ensures Window(c) >= 60
    ensures Window(c) >= 61 <==> c.job.intervalTime != "23:59"
  {
    var t := c.job.intervalTime;
    if SlotTime(t).value == DAY - 60 {
      assert t[0] == '2' && t[1] == '3' && t[3] == '5' && t[4] == '9';
      assert t == "23:59";
    }
  }
}
