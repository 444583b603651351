/** `AlarmReceiver`: the broadcast entry point. An alarm trigger re-arms a
    recurring alarm and starts the ring service; boot completion re-arms every
    enabled alarm, because the OS forgets its wake-ups on reboot. */
module Receiver {
  import opened Alarms
  import opened Scheduler
  import opened Repository
  import opened UseCases

  datatype Action = AlarmTrigger | BootCompleted | OtherAction(name: string)

  /** The calls `handleAlarmTrigger` makes for an intent carrying `alarmId`. */
  function TriggerEffects(alarms: map<int, Alarm>, alarmId: int): (r: seq<Effect>)
    ensures alarmId == NO_ALARM_ID <==> r == []
    ensures RingServiceStarted(alarmId) in r <==> alarmId != NO_ALARM_ID && alarmId in alarms
    ensures (exists a :: Scheduled(a) in r) <==>
      alarmId != NO_ALARM_ID && alarmId in alarms && !alarms[alarmId].IsOneShot()
    ensures r != [] ==> r[0] == Read(alarmId)
    ensures forall a :: Scheduled(a) in r ==> alarmId in alarms && a == alarms[alarmId]
    ensures RingServiceStarted(alarmId) in r ==> r[|r| - 1] == RingServiceStarted(alarmId)
    ensures forall i, j :: 0 <= i < |r| && 0 <= j < |r| && r[i].Scheduled? && r[j].RingServiceStarted? ==> i < j
  {
    if alarmId == NO_ALARM_ID then []
    else if alarmId !in alarms then [Read(alarmId)]
    else
      var a := alarms[alarmId];
      [Read(alarmId)] + (if a.IsOneShot() then [] else [Scheduled(a)]) + [RingServiceStarted(alarmId)]
  }

  /** The wake-up table after `schedule` was called on each alarm of `list` in turn. */
  function RearmAll(timers: map<int, PendingAlarm>, list: seq<Alarm>, now: int): map<int, PendingAlarm>
  {
    if list == [] then timers
    else WithSchedule(RearmAll(timers, list[..|list| - 1], now), list[|list| - 1], now)
  }

  /** Re-arming never touches a request code that no listed alarm maps to. */
  lemma {:induction false} RearmAllKeepsOthers(timers: map<int, PendingAlarm>, list: seq<Alarm>, now: int, c: int)
    requires forall i :: 0 <= i < |list| ==> RequestCode(list[i].id) != c
    ensures c in RearmAll(timers, list, now) <==> c in timers
    ensures c in timers ==> RearmAll(timers, list, now)[c] == timers[c]
    decreases |list|
  {
    if list != [] {
      RearmAllKeepsOthers(timers, list[..|list| - 1], now, c);
    }
  }

  /** When the listed alarms have distinct request codes, each one with a trigger
      ends up armed at that trigger, whatever order the list is in. */
  lemma {:induction false} RearmAllArms(timers: map<int, PendingAlarm>, list: seq<Alarm>, now: int, k: int)
    requires 0 <= k < |list|
    requires forall i, j :: 0 <= i < j < |list| ==> RequestCode(list[i].id) != RequestCode(list[j].id)
    requires NextTriggerTime(list[k], now).Some?
    ensures RequestCode(list[k].id) in RearmAll(timers, list, now)
    ensures RearmAll(timers, list, now)[RequestCode(list[k].id)] ==
            PendingAlarm(NextTriggerTime(list[k], now).value, list[k].id)
    decreases |list|
  {
    var prefix := list[..|list| - 1];
    if k < |list| - 1 {
      assert prefix[k] == list[k];
      RearmAllArms(timers, prefix, now, k);
    }
  }

  /** After boot, every enabled alarm with a next trigger is armed at it under its
      own id, provided the stored ids are valid request codes (SQLite hands out
      row ids from 1 upwards). */
  lemma BootArmsEveryEnabledAlarm(alarms: map<int, Alarm>, list: seq<Alarm>, timers: map<int, PendingAlarm>, now: int, id: int)
    requires IsEnabledListing(alarms, list)
    requires forall i :: i in alarms ==> 0 <= i <= INT_MAX
    requires id in alarms && alarms[id].isEnabled && NextTriggerTime(alarms[id], now).Some?
    ensures id in RearmAll(timers, list, now)
    ensures RearmAll(timers, list, now)[id] == PendingAlarm(NextTriggerTime(alarms[id], now).value, id)
  {
    var k :| 0 <= k < |list| && list[k].id == id;
    forall i, j | 0 <= i < j < |list|
      ensures RequestCode(list[i].id) != RequestCode(list[j].id)
    {
      assert list[i].id in alarms && list[j].id in alarms;
    }
    RearmAllArms(timers, list, now, k);
  }

  /** After boot, a disabled alarm's wake-up entry is exactly as it was, provided
      the stored ids are valid request codes. */
  lemma BootLeavesDisabledAlone(alarms: map<int, Alarm>, list: seq<Alarm>, timers: map<int, PendingAlarm>, now: int, id: int)
    requires IsEnabledListing(alarms, list)
    requires forall i :: i in alarms ==> 0 <= i <= INT_MAX
    requires id in alarms && !alarms[id].isEnabled
    ensures id in RearmAll(timers, list, now) <==> id in timers
    ensures id in timers ==> RearmAll(timers, list, now)[id] == timers[id]
  {
    forall i | 0 <= i < |list|
      ensures RequestCode(list[i].id) != id
    {
      assert list[i].id in alarms && list[i].id != id;
    }
    RearmAllKeepsOthers(timers, list, now, id);
  }

  /** Within a week, a weekday recurs only on the seventh day. */
  lemma WeekdayRecursAfterSeven(d0: int, k: int)
    requires 1 <= k <= 7 && Weekday(d0 + k) == Weekday(d0)
    ensures k == 7
  {
    var q0 := (d0 + 4) / 7;
    var q1 := (d0 + k + 4) / 7;
    assert d0 + 4 == q0 * 7 + (d0 + 4) % 7;
    assert d0 + k + 4 == q1 * 7 + (d0 + k + 4) % 7;
    assert k == (q1 - q0) * 7;
  }

  /** Two instants at the same time of day, on the same weekday, at most a week
      apart and in order, are exactly a week apart. */
  lemma SameSlotNextWeek(t: int, t2: int)
    requires t % DAY_MS == t2 % DAY_MS && DayOfWeek(t) == DayOfWeek(t2)
    requires t < t2 <= t + 7 * DAY_MS
    ensures t2 == t + 7 * DAY_MS
  {
    var d0 := DayOf(t);
    var d2 := DayOf(t2);
    assert t == d0 * DAY_MS + t % DAY_MS;
    assert t2 == d2 * DAY_MS + t % DAY_MS;
    assert t2 - t == (d2 - d0) * DAY_MS;
    assert 1 <= d2 - d0 <= 7;
    assert d2 == d0 + (d2 - d0);
    WeekdayRecursAfterSeven(d0, d2 - d0);
  }

  /** A recurring alarm with a single repeat day, re-armed at the instant it
      fires, is armed again exactly one week later. */
  lemma WeeklyAlarmRearmsOneWeekLater(a: Alarm, now: int)
    requires ValidTime(a) && |a.repeatDays| == 1
    requires NextTriggerTime(a, now).Some?
    ensures var t := NextTriggerTime(a, now).value;
      NextTriggerTime(a, t) == Some(t + 7 * DAY_MS)
  {
    var t := NextTriggerTime(a, now).value;
    TriggerAligned(a, now);
    RecurringTriggerQualifies(a, now);
    var d := DayOfWeek(t);
    RecurringTriggerExists(a, t, d);
    var t2 := NextTriggerTime(a, t).value;
    TriggerAligned(a, t);
    RecurringTriggerQualifies(a, t);
    OnlyDay(a.repeatDays, d, DayOfWeek(t2));
    SameSlotNextWeek(t, t2);
  }

  /** A one-element day set holds one day. */
  lemma OnlyDay(days: seq<Int32>, x: int, y: int)
    requires |days| == 1 && x in Elements(days) && y in Elements(days)
    ensures x == y
  {
    assert x in days && y in days;
  }

  class AlarmReceiver {
    const repository: AlarmRepository
    const scheduler: AlarmManagerScheduler

    constructor (repository: AlarmRepository, scheduler: AlarmManagerScheduler)
      ensures this.repository == repository && this.scheduler == scheduler
    {
      this.repository := repository;
      this.scheduler := scheduler;
    }

    /** `handleAlarmTrigger`: a recurring alarm is re-armed for its next occurrence
        before the ring service is started; a one-shot alarm is not re-armed. */
    method HandleAlarmTrigger(alarmId: int, now: int) returns (effects: seq<Effect>)
      modifies scheduler
      ensures effects == TriggerEffects(repository.alarms, alarmId)
      ensures alarmId != NO_ALARM_ID && alarmId in repository.alarms &&
              !repository.alarms[alarmId].IsOneShot() ==>
        scheduler.timers == WithSchedule(old(scheduler.timers), repository.alarms[alarmId], now)
      ensures alarmId == NO_ALARM_ID || alarmId !in repository.alarms ||
              repository.alarms[alarmId].IsOneShot() ==>
        scheduler.timers == old(scheduler.timers)
    {
      if alarmId == NO_ALARM_ID {
        return [];
      }
      var alarm := repository.GetAlarmById(alarmId);
      effects := [Read(alarmId)];
      if alarm.None? {
        return;
      }
      if alarm.value.repeatDays != [] {
        scheduler.Schedule(alarm.value, now);
        effects := effects + [Scheduled(alarm.value)];
      }
      effects := effects + [RingServiceStarted(alarmId)];
    }

    /** `rescheduleAllAlarms`: `schedule` on every enabled alarm, in the order the
        query returns them (also returned, as `rearmed`). */
    method RescheduleAllAlarms(now: int) returns (rearmed: seq<Alarm>, effects: seq<Effect>)
      requires repository.Valid()
      modifies scheduler
      ensures IsEnabledListing(repository.alarms, rearmed)
      ensures scheduler.timers == RearmAll(old(scheduler.timers), rearmed, now)
      ensures |effects| == |rearmed| + 1 && effects[0] == ReadEnabled
      ensures forall i :: 0 <= i < |rearmed| ==> effects[i + 1] == Scheduled(rearmed[i])
    {
      rearmed := repository.GetEnabledAlarms();
      effects := [ReadEnabled];
      var n := 0;
      while n < |rearmed|
        invariant 0 <= n <= |rearmed|
        invariant scheduler.timers == RearmAll(old(scheduler.timers), rearmed[..n], now)
        invariant |effects| == n + 1 && effects[0] == ReadEnabled
        invariant forall i :: 0 <= i < n ==> effects[i + 1] == Scheduled(rearmed[i])
      {
        scheduler.Schedule(rearmed[n], now);
        assert rearmed[..n + 1][..n] == rearmed[..n];
        effects := effects + [Scheduled(rearmed[n])];
        n := n + 1;
      }
      assert rearmed[..n] == rearmed;
    }

    /** `onReceive`: dispatch on the action, then always `pendingResult.finish()`. */
    method OnReceive(action: Action, alarmId: int, now: int) returns (effects: seq<Effect>)
      requires repository.Valid()
      modifies scheduler
      ensures effects != [] && effects[|effects| - 1] == BroadcastFinished
      ensures action == AlarmTrigger ==>
        effects == TriggerEffects(repository.alarms, alarmId) + [BroadcastFinished]
      ensures action == AlarmTrigger && alarmId != NO_ALARM_ID && alarmId in repository.alarms &&
              !repository.alarms[alarmId].IsOneShot() ==>
        scheduler.timers == WithSchedule(old(scheduler.timers), repository.alarms[alarmId], now)
      ensures action == AlarmTrigger && (alarmId == NO_ALARM_ID || alarmId !in repository.alarms ||
              repository.alarms[alarmId].IsOneShot()) ==>
        scheduler.timers == old(scheduler.timers)
      ensures action == BootCompleted ==>
        exists rearmed :: IsEnabledListing(repository.alarms, rearmed) &&
          scheduler.timers == RearmAll(old(scheduler.timers), rearmed, now) &&
          |effects| == |rearmed| + 2 && effects[0] == ReadEnabled &&
          (forall i :: 0 <= i < |rearmed| ==> effects[i + 1] == Scheduled(rearmed[i]))
      ensures action.OtherAction? ==>
        effects == [BroadcastFinished] && scheduler.timers == old(scheduler.timers)
    {
      match action {
        case AlarmTrigger =>
          effects := HandleAlarmTrigger(alarmId, now);
        case BootCompleted =>
          var rearmed;
          rearmed, effects := RescheduleAllAlarms(now);
        case OtherAction(_) =>
          effects := [];
      }
      effects := effects + [BroadcastFinished];
    }
  }
}
