/** The three use cases that keep the OS wake-ups consistent with the stored
    alarms: save, toggle and delete. Each returns the calls it made on the
    repository and the scheduler, in order. */
module UseCases {
  import opened Alarms
  import opened Scheduler
  import opened Repository

  /** A call on the repository, the scheduler or the platform. */
  datatype Effect =
    | Saved(alarm: Alarm)
    | EnabledSet(id: int, on: bool)
    | Read(id: int)
    | ReadEnabled
    | Deleted(alarm: Alarm)
    | Scheduled(alarm: Alarm)
    | Cancelled(alarm: Alarm)
    | RingServiceStarted(id: int)
    | BroadcastFinished

  predicate IsSchedulerCall(e: Effect) {
    e.Scheduled? || e.Cancelled?
  }

  class SaveAlarmUseCase {
    const repository: AlarmRepository
    const scheduler: AlarmManagerScheduler

    constructor (repository: AlarmRepository, scheduler: AlarmManagerScheduler)
      ensures this.repository == repository && this.scheduler == scheduler
    {
      this.repository := repository;
      this.scheduler := scheduler;
    }

    /** Stores the alarm, then hands the stored copy (with its row id) to exactly
        one scheduler call: `schedule` when enabled, `cancel` otherwise. */
    method Invoke(alarm: Alarm, now: int) returns (savedId: int, effects: seq<Effect>)
      requires repository.Valid()
      modifies repository, scheduler
      ensures repository.Valid()
      ensures alarm.id != 0 ==> savedId == alarm.id
      ensures alarm.id == 0 ==> savedId !in old(repository.alarms)
      ensures repository.alarms == old(repository.alarms)[savedId := alarm.(id := savedId)]
      ensures effects == [Saved(alarm),
                          if alarm.isEnabled then Scheduled(alarm.(id := savedId))
                          else Cancelled(alarm.(id := savedId))]
      ensures alarm.isEnabled ==>
        scheduler.timers == WithSchedule(old(scheduler.timers), alarm.(id := savedId), now)
      ensures !alarm.isEnabled ==>
        scheduler.timers == WithoutTimer(old(scheduler.timers), alarm.(id := savedId))
      ensures !alarm.isEnabled ==> RequestCode(savedId) !in scheduler.timers
    {
      savedId := repository.SaveAlarm(alarm);
      effects := [Saved(alarm)];
      var savedAlarm := alarm.(id := savedId);
      if savedAlarm.isEnabled {
        scheduler.Schedule(savedAlarm, now);
        effects := effects + [Scheduled(savedAlarm)];
      } else {
        scheduler.Cancel(savedAlarm);
        effects := effects + [Cancelled(savedAlarm)];
      }
    }
  }

  class ToggleAlarmUseCase {
    const repository: AlarmRepository
    const scheduler: AlarmManagerScheduler

    constructor (repository: AlarmRepository, scheduler: AlarmManagerScheduler)
      ensures this.repository == repository && this.scheduler == scheduler
    {
      this.repository := repository;
      this.scheduler := scheduler;
    }

    /** Writes the flag, re-reads the alarm and, when it exists, schedules or
        cancels the re-read copy according to the new flag. */
    method Invoke(id: int, isEnabled: bool, now: int) returns (effects: seq<Effect>)
      requires repository.Valid()
      modifies repository, scheduler
      ensures repository.Valid()
      ensures id !in old(repository.alarms) ==>
        repository.alarms == old(repository.alarms) &&
        scheduler.timers == old(scheduler.timers) &&
        effects == [EnabledSet(id, isEnabled), Read(id)]
      ensures id in old(repository.alarms) ==>
        var updated := old(repository.alarms)[id].(isEnabled := isEnabled);
        repository.alarms == old(repository.alarms)[id := updated] &&
        effects == [EnabledSet(id, isEnabled), Read(id),
                    if isEnabled then Scheduled(updated) else Cancelled(updated)] &&
        scheduler.timers == (if isEnabled then WithSchedule(old(scheduler.timers), updated, now)
                             else WithoutTimer(old(scheduler.timers), updated))
    {
      repository.SetAlarmEnabled(id, isEnabled);
      effects := [EnabledSet(id, isEnabled), Read(id)];
      var alarm := repository.GetAlarmById(id);
      if alarm.None? {
        return;
      }
      if isEnabled {
        scheduler.Schedule(alarm.value, now);
        effects := effects + [Scheduled(alarm.value)];
      } else {
        scheduler.Cancel(alarm.value);
        effects := effects + [Cancelled(alarm.value)];
      }
    }
  }

  class DeleteAlarmUseCase {
    const repository: AlarmRepository
    const scheduler: AlarmManagerScheduler

    constructor (repository: AlarmRepository, scheduler: AlarmManagerScheduler)
      ensures this.repository == repository && this.scheduler == scheduler
    {
      this.repository := repository;
      this.scheduler := scheduler;
    }

    /** Cancels the wake-up, then deletes the row; nothing else changes. */
    method Invoke(alarm: Alarm) returns (effects: seq<Effect>)
      requires repository.Valid()
      modifies repository, scheduler
      ensures repository.Valid()
      ensures effects == [Cancelled(alarm), Deleted(alarm)]
      ensures repository.alarms == old(repository.alarms) - {alarm.id}
      ensures scheduler.timers == WithoutTimer(old(scheduler.timers), alarm)
    {
      scheduler.Cancel(alarm);
      repository.DeleteAlarm(alarm);
      effects := [Cancelled(alarm), Deleted(alarm)];
    }
  }

  /** The stored state the use cases act on: the alarms table and the OS wake-ups. */
  datatype Store = Store(alarms: map<int, Alarm>, timers: map<int, PendingAlarm>)

  /** What `DeleteAlarmUseCase` does to the stored state. */
  function AfterDelete(s: Store, alarm: Alarm): (r: Store)
    ensures alarm.id !in r.alarms && RequestCode(alarm.id) !in r.timers
  {
    Store(s.alarms - {alarm.id}, WithoutTimer(s.timers, alarm))
  }

  /** Deleting an alarm a second time leaves the state as the first delete left it. */
  lemma DeleteIdempotent(s: Store, alarm: Alarm)
    ensures AfterDelete(AfterDelete(s, alarm), alarm) == AfterDelete(s, alarm)
  {
  }

  /** Deleting one alarm keeps every other alarm and every wake-up under another
      request code. */
  lemma DeleteKeepsOthers(s: Store, alarm: Alarm)
    ensures forall id :: id != alarm.id && id in s.alarms ==>
      id in AfterDelete(s, alarm).alarms && AfterDelete(s, alarm).alarms[id] == s.alarms[id]
    ensures forall c :: c != RequestCode(alarm.id) && c in s.timers ==>
      c in AfterDelete(s, alarm).timers && AfterDelete(s, alarm).timers[c] == s.timers[c]
  {
  }
}
