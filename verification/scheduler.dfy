/** `AlarmManagerScheduler`: the next firing instant of an alarm, and the OS
    alarm manager's table of pending wake-ups that `schedule` and `cancel` edit.

    Instants are milliseconds since the epoch in the device's local time, with a
    fixed offset (no daylight-saving jumps), so that every day is 86 400 000 ms. */
module Scheduler {
  import opened Alarms

  const MINUTE_MS: int := 60_000
  const HOUR_MS: int := 3_600_000
  const DAY_MS: int := 86_400_000

  /** Days since 1970-01-01 (a Thursday). */
  function DayOf(t: int): int {
    t / DAY_MS
  }

  /** Calendar DAY_OF_WEEK of a day number (SUNDAY = 1 ... SATURDAY = 7). */
  function Weekday(day: int): (w: int)
    ensures IsWeekday(w)
  {
    (day + 4) % 7 + 1
  }

  /** Calendar DAY_OF_WEEK of an instant. */
  function DayOfWeek(t: int): (w: int)
    ensures IsWeekday(w)
  {
    Weekday(DayOf(t))
  }

  /** The instant on `day` with HOUR_OF_DAY, MINUTE, SECOND and MILLISECOND set to
      hour, minute, 0, 0; out-of-range fields carry over as a lenient Calendar does. */
  function SlotOn(day: int, hour: int, minute: int): int {
    day * DAY_MS + hour * HOUR_MS + minute * MINUTE_MS
  }

  predicate ValidTime(a: Alarm) {
    0 <= a.hour <= 23 && 0 <= a.minute <= 59
  }

  /** The candidate examined at `daysAhead` in the scan of a recurring alarm. */
  function Candidate(a: Alarm, now: int, daysAhead: int): int {
    SlotOn(DayOf(now) + daysAhead, a.hour, a.minute)
  }

  /** A scanned candidate is accepted when it falls on one of the repeat days and
      lies strictly after now. */
  predicate Qualifies(a: Alarm, now: int, daysAhead: int) {
    var c := Candidate(a, now, daysAhead);
    DayOfWeek(c) in Elements(a.repeatDays) && c > now
  }

  /** The `for (daysAhead in 0..7)` scan, from `daysAhead = k` on: a linear search
      for the first accepted candidate. */
  function ScanFrom(a: Alarm, now: int, k: nat): (r: Option<int>)
    requires k <= 8
    ensures r.Some? ==>
      exists j :: k <= j <= 7 && Qualifies(a, now, j) && r.value == Candidate(a, now, j) &&
                  forall i :: k <= i < j ==> !Qualifies(a, now, i)
    ensures r.None? ==> forall j :: k <= j <= 7 ==> !Qualifies(a, now, j)
    decreases 8 - k
  {
    if k == 8 then None
    else if Qualifies(a, now, k) then Some(Candidate(a, now, k))
    else ScanFrom(a, now, k + 1)
  }

  /** `nextTriggerTime`: the next firing instant, or None when the scan finds none. */
  function NextTriggerTime(a: Alarm, now: int): (r: Option<int>)
    ensures a.IsOneShot() ==> r.Some?
  {
    if a.IsOneShot() then
      var candidate := SlotOn(DayOf(now), a.hour, a.minute);
      Some(if candidate <= now then candidate + DAY_MS else candidate)
    else
      ScanFrom(a, now, 0)
  }

  /** A slot lies on the day it was built for, at hour:minute:00.000. */
  lemma SlotFields(day: int, hour: int, minute: int)
    requires 0 <= hour <= 23 && 0 <= minute <= 59
    ensures DayOf(SlotOn(day, hour, minute)) == day
    ensures SlotOn(day, hour, minute) % DAY_MS == hour * HOUR_MS + minute * MINUTE_MS
    ensures SlotOn(day, hour, minute) % MINUTE_MS == 0
  {
    var t := SlotOn(day, hour, minute);
    var offset := hour * HOUR_MS + minute * MINUTE_MS;
    assert 0 <= offset < DAY_MS;
    assert t == day * DAY_MS + offset;
    assert t == (day * 1440 + hour * 60 + minute) * MINUTE_MS;
  }

  /** A one-shot alarm fires today at hour:minute if that is still ahead, and
      otherwise exactly one day later; a slot equal to now counts as passed. */
  lemma OneShotTrigger(a: Alarm, now: int)
    requires a.IsOneShot()
    ensures var today := SlotOn(DayOf(now), a.hour, a.minute);
      NextTriggerTime(a, now) == Some(if today > now then today else today + DAY_MS)
    ensures ValidTime(a) ==>
      now < NextTriggerTime(a, now).value <= now + DAY_MS
  {
    if ValidTime(a) {
      var today := SlotOn(DayOf(now), a.hour, a.minute);
      SlotFields(DayOf(now), a.hour, a.minute);
      assert DayOf(now) * DAY_MS <= now < DayOf(now) * DAY_MS + DAY_MS;
      assert DayOf(now) * DAY_MS <= today < DayOf(now) * DAY_MS + DAY_MS;
    }
  }

  /** The boundary case: an alarm set for exactly now is scheduled for tomorrow. */
  lemma OneShotAtNowRollsOver(a: Alarm, now: int)
    requires a.IsOneShot()
    requires now == SlotOn(DayOf(now), a.hour, a.minute)
    ensures NextTriggerTime(a, now) == Some(now + DAY_MS)
  {
  }

  /** Every instant returned has the alarm's hour and minute, with second and
      millisecond zero. */
  lemma TriggerAligned(a: Alarm, now: int)
    requires ValidTime(a)
    requires NextTriggerTime(a, now).Some?
    ensures var t := NextTriggerTime(a, now).value;
      t % MINUTE_MS == 0 && t % DAY_MS == a.hour * HOUR_MS + a.minute * MINUTE_MS
  {
    var t := NextTriggerTime(a, now).value;
    var day: int;
    if a.IsOneShot() {
      var today := SlotOn(DayOf(now), a.hour, a.minute);
      if today <= now {
        day := DayOf(now) + 1;
        assert t == today + DAY_MS == SlotOn(day, a.hour, a.minute);
      } else {
        day := DayOf(now);
      }
    } else {
      var j :| 0 <= j <= 7 && t == Candidate(a, now, j);
      day := DayOf(now) + j;
    }
    assert t == SlotOn(day, a.hour, a.minute);
    SlotFields(day, a.hour, a.minute);
  }

  /** A recurring alarm's trigger lies strictly after now, on one of its repeat
      days, on one of the eight scanned days, and no earlier scanned day qualifies. */
  lemma RecurringTriggerQualifies(a: Alarm, now: int)
    requires !a.IsOneShot()
    requires NextTriggerTime(a, now).Some?
    ensures var t := NextTriggerTime(a, now).value;
      t > now && DayOfWeek(t) in Elements(a.repeatDays) &&
      exists j :: 0 <= j <= 7 && t == Candidate(a, now, j) &&
                  forall i :: 0 <= i < j ==> !Qualifies(a, now, i)
  {
  }

  /** The trigger is the earliest instant after now that is an hour:minute slot
      on a repeat day: no such slot lies strictly between now and it. */
  lemma RecurringTriggerEarliest(a: Alarm, now: int, day: int)
    requires ValidTime(a) && !a.IsOneShot()
    requires NextTriggerTime(a, now).Some?
    requires Weekday(day) in Elements(a.repeatDays)
    requires SlotOn(day, a.hour, a.minute) > now
    ensures NextTriggerTime(a, now).value <= SlotOn(day, a.hour, a.minute)
  {
    var t := NextTriggerTime(a, now).value;
    var j :| 0 <= j <= 7 && Qualifies(a, now, j) && t == Candidate(a, now, j) &&
             forall i :: 0 <= i < j ==> !Qualifies(a, now, i);
    var d0 := DayOf(now);
    SlotFields(day, a.hour, a.minute);
    SlotFields(d0, a.hour, a.minute);
    // A slot on a day before today lies before now, so day >= d0 here.
    if day < d0 + j {
      var i := day - d0;
      assert Candidate(a, now, i) == SlotOn(day, a.hour, a.minute);
      assert Qualifies(a, now, i);
    } else {
      assert SlotOn(day, a.hour, a.minute) - t == (day - d0 - j) * DAY_MS;
    }
  }

  /** With at least one real weekday among the repeat days, a trigger is always
      found, and it is at most seven days ahead. */
  lemma RecurringTriggerExists(a: Alarm, now: int, d: int)
    requires ValidTime(a)
    requires d in Elements(a.repeatDays) && IsWeekday(d)
    ensures NextTriggerTime(a, now).Some?
    ensures now < NextTriggerTime(a, now).value <= now + 7 * DAY_MS
  {
    var d0 := DayOf(now);
    var k := WeekdayAhead(d0, d);
    SlotFields(d0 + k, a.hour, a.minute);
    assert d0 * DAY_MS <= now < d0 * DAY_MS + DAY_MS;
    assert Candidate(a, now, k) >= (d0 + 1) * DAY_MS;
    assert Qualifies(a, now, k);
    TriggerWithinWeek(a, now);
  }

  /** Every weekday comes round within the next seven days. */
  lemma WeekdayAhead(d0: int, d: int) returns (k: int)
    requires IsWeekday(d)
    ensures 1 <= k <= 7 && Weekday(d0 + k) == d
    ensures k == 7 ==> Weekday(d0) == d
  {
    var r := (d - 1 - (d0 + 4)) % 7;
    k := if r == 0 then 7 else r;
    assert (d0 + k + 4) % 7 == (d - 1) % 7;
  }

  /** Whatever the scan finds is at most seven days ahead. */
  lemma TriggerWithinWeek(a: Alarm, now: int)
    requires ValidTime(a) && !a.IsOneShot()
    requires ScanFrom(a, now, 0).Some?
    ensures now < ScanFrom(a, now, 0).value <= now + 7 * DAY_MS
  {
    var d0 := DayOf(now);
    var t := ScanFrom(a, now, 0).value;
    var j :| 0 <= j <= 7 && Qualifies(a, now, j) && t == Candidate(a, now, j) &&
             forall i :: 0 <= i < j ==> !Qualifies(a, now, i);
    if j == 7 {
      assert !Qualifies(a, now, 0);
      WeekAheadOnlyAfterTodayPassed(a, now);
    } else {
      SlotFields(d0 + j, a.hour, a.minute);
      assert d0 * DAY_MS <= now;
      assert t < (d0 + j + 1) * DAY_MS;
    }
  }

  /** Day 7 of the scan has today's weekday, so it is only accepted when today's
      slot had already passed; it then lies at most a week after now. */
  lemma WeekAheadOnlyAfterTodayPassed(a: Alarm, now: int)
    requires ValidTime(a)
    requires Qualifies(a, now, 7) && !Qualifies(a, now, 0)
    ensures Candidate(a, now, 7) <= now + 7 * DAY_MS
  {
    var d0 := DayOf(now);
    SlotFields(d0, a.hour, a.minute);
    SlotFields(d0 + 7, a.hour, a.minute);
    assert Weekday(d0) == Weekday(d0 + 7);
    assert DayOfWeek(Candidate(a, now, 0)) == DayOfWeek(Candidate(a, now, 7));
    assert Candidate(a, now, 0) <= now;
  }

  /** The scan comes back empty exactly when no repeat day is a real weekday. */
  lemma TriggerNoneIff(a: Alarm, now: int)
    requires ValidTime(a)
    ensures NextTriggerTime(a, now).None? <==>
      !a.IsOneShot() && forall d :: d in a.repeatDays ==> !IsWeekday(d)
  {
    if exists d :: d in a.repeatDays && IsWeekday(d) {
      var d :| d in a.repeatDays && IsWeekday(d);
      RecurringTriggerExists(a, now, d);
    } else if !a.IsOneShot() {
      assert forall j :: 0 <= j <= 7 ==> !Qualifies(a, now, j);
    }
  }

  /** `(id and 0x7FFF_FFFFL).toInt()`: the low 31 bits of the two's-complement id,
      which is the id modulo 2^31. */
  function RequestCode(id: int): (code: int)
    ensures 0 <= code <= INT_MAX
    ensures 0 <= id <= INT_MAX ==> code == id
  {
    id % (INT_MAX + 1)
  }

  /** Ids that agree in their low 31 bits share one request code, and so one
      pending wake-up. */
  lemma RequestCodeAliases(id: int, k: int)
    ensures RequestCode(id + k * (INT_MAX + 1)) == RequestCode(id)
  {
    var m := INT_MAX + 1;
    var q := id / m;
    assert id == q * m + id % m;
    assert id + k * m == (q + k) * m + id % m;
  }

  /** An entry in the OS alarm manager: when it fires and the alarm id carried by
      its intent. */
  datatype PendingAlarm = PendingAlarm(at: int, alarmId: int)

  /** The table after `schedule(alarm)`: unchanged when no trigger is found,
      otherwise the alarm's request code maps to its trigger. */
  function WithSchedule(timers: map<int, PendingAlarm>, alarm: Alarm, now: int): (r: map<int, PendingAlarm>)
    ensures NextTriggerTime(alarm, now).None? ==> r == timers
    ensures NextTriggerTime(alarm, now).Some? ==>
      RequestCode(alarm.id) in r &&
      r[RequestCode(alarm.id)] == PendingAlarm(NextTriggerTime(alarm, now).value, alarm.id)
    ensures forall c :: c != RequestCode(alarm.id) ==>
      (c in r <==> c in timers) && (c in r ==> r[c] == timers[c])
  {
    match NextTriggerTime(alarm, now)
    case None => timers
    case Some(t) => timers[RequestCode(alarm.id) := PendingAlarm(t, alarm.id)]
  }

  /** The table after `cancel(alarm)`: the alarm's request code has no entry, and
      every other entry is as it was. */
  function WithoutTimer(timers: map<int, PendingAlarm>, alarm: Alarm): (r: map<int, PendingAlarm>)
    ensures RequestCode(alarm.id) !in r
    ensures forall c :: c != RequestCode(alarm.id) ==>
      (c in r <==> c in timers) && (c in r ==> r[c] == timers[c])
  {
    timers - {RequestCode(alarm.id)}
  }

  class AlarmManagerScheduler {
    /** The app's pending exact wake-ups, keyed by PendingIntent request code. */
    var timers: map<int, PendingAlarm>

    constructor ()
      ensures timers == map[]
    {
      timers := map[];
    }

    /** `schedule`: nothing when no trigger is found, otherwise the wake-up under the
        alarm's request code is set (or replaced) to fire at the trigger. */
    method Schedule(alarm: Alarm, now: int)
      modifies this
      ensures timers == WithSchedule(old(timers), alarm, now)
    {
      var trigger := FindNextTrigger(alarm, now);
      if trigger.None? {
        return;
      }
      timers := timers[RequestCode(alarm.id) := PendingAlarm(trigger.value, alarm.id)];
    }

    /** `nextTriggerTime` as written: the one-shot roll-over, then the
        `for (daysAhead in 0..7)` loop returning the first accepted candidate. */
    method FindNextTrigger(alarm: Alarm, now: int) returns (r: Option<int>)
      ensures r == NextTriggerTime(alarm, now)
    {
      var candidate := SlotOn(DayOf(now), alarm.hour, alarm.minute);
      if alarm.repeatDays == [] {
        if candidate <= now {
          candidate := candidate + DAY_MS;
        }
        return Some(candidate);
      }
      var daysAhead := 0;
      while daysAhead <= 7
        invariant 0 <= daysAhead <= 8
        invariant ScanFrom(alarm, now, daysAhead) == ScanFrom(alarm, now, 0)
      {
        var check := SlotOn(DayOf(now) + daysAhead, alarm.hour, alarm.minute);
        assert check == Candidate(alarm, now, daysAhead);
        if DayOfWeek(check) in alarm.repeatDays && check > now {
          assert Qualifies(alarm, now, daysAhead);
          return Some(check);
        }
        assert !Qualifies(alarm, now, daysAhead);
        daysAhead := daysAhead + 1;
      }
      return None;
    }

    /** `cancel`: the wake-up under the alarm's request code is removed. */
    method Cancel(alarm: Alarm)
      modifies this
      ensures timers == WithoutTimer(old(timers), alarm)
    {
      timers := timers - {RequestCode(alarm.id)};
    }
  }
}
