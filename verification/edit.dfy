/** `AlarmEditViewModel`: the state of the edit screen, the reducers that the
    screen's inputs apply to it, and the load, save and delete actions that go
    through the repository and the use cases.

    Each `_uiState.update { ... }` is a pure step on `EditUiState`; the view
    model is a class whose `uiState` the methods reassign with those steps. The
    coroutines the actions launch are run to completion in place. */
module AlarmEdit {
  import opened Alarms
  import opened Scheduler
  import opened Repository
  import opened UseCases

  const MAX_LABEL_LENGTH: int := 50
  const MAX_TTS_LENGTH: int := 50

  /** The id `loadAlarm` is given for a new alarm. */
  const NEW_ALARM_ID: int := -1

  datatype EditUiState = EditUiState(
    hour: Int32,
    minute: Int32,
    labelText: string,
    ttsMessage: string,
    repeatDays: DaySet,
    musicUri: Option<string>,
    isLoading: bool,
    isNavigateBack: bool,
    isDuplicateTime: bool,
    isDataLoaded: bool)

  /** `AlarmEditUiState()`: 08:00, nothing typed, nothing loaded, no flag raised. */
  function DefaultUiState(): (s: EditUiState)
    ensures s.hour == 8 && s.minute == 0
    ensures s.labelText == "" && s.ttsMessage == "" && s.repeatDays == [] && s.musicUri == None
    ensures !s.isLoading && !s.isNavigateBack && !s.isDuplicateTime && !s.isDataLoaded
  {
    EditUiState(8, 0, "", "", [], None, false, false, false, false)
  }

  /** `updateLabel`: a label longer than the cap is refused and nothing changes;
      otherwise only the label changes. */
  function WithLabel(s: EditUiState, text: string): (r: EditUiState)
    ensures |text| <= MAX_LABEL_LENGTH ==> r.labelText == text
    ensures |text| > MAX_LABEL_LENGTH ==> r == s
    ensures r == s.(labelText := r.labelText)
  {
    if |text| <= MAX_LABEL_LENGTH then s.(labelText := text) else s
  }

  /** `updateTtsMessage`: the same rule, with its own cap, for the spoken message. */
  function WithTtsMessage(s: EditUiState, msg: string): (r: EditUiState)
    ensures |msg| <= MAX_TTS_LENGTH ==> r.ttsMessage == msg
    ensures |msg| > MAX_TTS_LENGTH ==> r == s
    ensures r == s.(ttsMessage := r.ttsMessage)
  {
    if |msg| <= MAX_TTS_LENGTH then s.(ttsMessage := msg) else s
  }

  /** The texts the screen lets the user type stay within their caps. */
  predicate WithinCaps(s: EditUiState) {
    |s.labelText| <= MAX_LABEL_LENGTH && |s.ttsMessage| <= MAX_TTS_LENGTH
  }

  /** Typing can never push a text over its cap, whatever is typed. */
  lemma TypingKeepsCaps(s: EditUiState, text: string, msg: string)
    requires WithinCaps(s)
    ensures WithinCaps(WithLabel(s, text)) && WithinCaps(WithTtsMessage(s, msg))
    ensures WithinCaps(WithTtsMessage(WithLabel(s, text), msg))
  {
  }

  /** Kotlin's `set - day` on a linked hash set: `day` dropped, the rest in order. */
  function DropDay(days: seq<Int32>, day: Int32): (r: seq<Int32>)
    ensures forall d :: d in r <==> d in days && d != day
    ensures NoDuplicates(days) ==> NoDuplicates(r)
  {
    if days == [] then []
    else if days[0] == day then DropDay(days[1..], day)
    else
      assert NoDuplicates(days) ==> NoDuplicates(days[1..]) && days[0] !in days[1..];
      [days[0]] + DropDay(days[1..], day)
  }

  /** `toggleRepeatDay`: a selected day is deselected, any other is selected. */
  function ToggleDay(days: DaySet, day: Int32): (r: DaySet)
    ensures Elements(r) == if day in days then Elements(days) - {day} else Elements(days) + {day}
  {
    if day in days then DropDay(days, day)
    else
      assert NoDuplicates(days + [day]) by {
        forall i, j | 0 <= i < j < |days| + 1
          ensures (days + [day])[i] != (days + [day])[j]
        {
          if j == |days| {
            assert (days + [day])[i] == days[i];
          }
        }
      }
      days + [day]
  }

  /** Dropping a day that was just appended restores the set, order included. */
  lemma {:induction false} DropAppended(days: seq<Int32>, day: Int32)
    requires day !in days
    ensures DropDay(days + [day], day) == days
    decreases |days|
  {
    if days == [] {
      assert [] + [day] == [day];
    } else {
      assert (days + [day])[1..] == days[1..] + [day];
      DropAppended(days[1..], day);
    }
  }

  /** Toggling a day twice gives back the same day set: exactly the same, order
      included, when the day started out unselected. */
  lemma ToggleTwice(days: DaySet, day: Int32)
    ensures Elements(ToggleDay(ToggleDay(days, day), day)) == Elements(days)
    ensures day !in days ==> ToggleDay(ToggleDay(days, day), day) == days
  {
    if day !in days {
      DropAppended(days, day);
    }
  }

  /** The duplicate rule of `saveAlarm`: the alarm found at that time counts
      unless it is the one being edited. */
  predicate IsDuplicate(existing: Option<Alarm>, editing: Option<Alarm>) {
    existing.Some? && !(editing.Some? && existing.value.id == editing.value.id)
  }

  /** The alarm `saveAlarm` stores: the one being edited (or a fresh one), with the
      chosen time, the screen's texts, days and tone, and switched on. */
  function AlarmToSave(editing: Option<Alarm>, s: EditUiState, hour: Int32, minute: Int32): (a: Alarm)
    ensures a.hour == hour && a.minute == minute && a.isEnabled
    ensures a.labelText == s.labelText && a.ttsMessage == s.ttsMessage
    ensures a.repeatDays == s.repeatDays && a.musicUri == s.musicUri
  {
    var base := if editing.Some? then editing.value else NewAlarm(hour, minute);
    base.(hour := hour, minute := minute, labelText := s.labelText, ttsMessage := s.ttsMessage,
          repeatDays := s.repeatDays, musicUri := s.musicUri, isEnabled := true)
  }

  /** Editing keeps the row id and every setting the screen does not show; a new
      alarm gets id 0 (a new row) and the record's defaults for those settings. */
  lemma SaveKeepsHiddenSettings(editing: Option<Alarm>, s: EditUiState, hour: Int32, minute: Int32)
    ensures var a := AlarmToSave(editing, s, hour, minute);
      var base := if editing.Some? then editing.value else NewAlarm(hour, minute);
      a.id == base.id && a.isPuzzleEnabled == base.isPuzzleEnabled &&
      a.alarmIntervalMinutes == base.alarmIntervalMinutes && a.repeatCount == base.repeatCount &&
      a.isVibrationEnabled == base.isVibrationEnabled && a.isTtsEnabled == base.isTtsEnabled &&
      a.isMusicEnabled == base.isMusicEnabled
    ensures editing.None? ==> AlarmToSave(editing, s, hour, minute).id == 0
  {
  }

  /** The screen after `loadAlarm` found the alarm: its editable fields shown. */
  function ShowAlarm(s: EditUiState, a: Alarm): (r: EditUiState)
    ensures r.hour == a.hour && r.minute == a.minute
    ensures r.labelText == a.labelText && r.ttsMessage == a.ttsMessage
    ensures r.repeatDays == a.repeatDays && r.musicUri == a.musicUri
    ensures !r.isLoading && r.isDataLoaded
    ensures r.isNavigateBack == s.isNavigateBack && r.isDuplicateTime == s.isDuplicateTime
  {
    s.(hour := a.hour, minute := a.minute, labelText := a.labelText, ttsMessage := a.ttsMessage,
       repeatDays := a.repeatDays, musicUri := a.musicUri, isLoading := false, isDataLoaded := true)
  }

  /** Saving a shown alarm unchanged at its own time stores it as it was, switched on. */
  lemma SaveShownRoundTrip(s: EditUiState, a: Alarm)
    ensures AlarmToSave(Some(a), ShowAlarm(s, a), a.hour, a.minute) == a.(isEnabled := true)
  {
  }

  class AlarmEditViewModel {
    var uiState: EditUiState
    var editingAlarm: Option<Alarm>
    const repository: AlarmRepository
    const saveAlarmUseCase: SaveAlarmUseCase
    const deleteAlarmUseCase: DeleteAlarmUseCase

    constructor (repository: AlarmRepository, saveAlarmUseCase: SaveAlarmUseCase,
                 deleteAlarmUseCase: DeleteAlarmUseCase)
      ensures uiState == DefaultUiState() && editingAlarm == None
      ensures this.repository == repository && this.saveAlarmUseCase == saveAlarmUseCase
      ensures this.deleteAlarmUseCase == deleteAlarmUseCase
    {
      uiState := DefaultUiState();
      editingAlarm := None;
      this.repository := repository;
      this.saveAlarmUseCase := saveAlarmUseCase;
      this.deleteAlarmUseCase := deleteAlarmUseCase;
    }

    /** `loadAlarm`: a new alarm starts at the clock's current hour and minute; an
        existing one is read and shown; an id with no row only ends the loading.
        `clockHour` and `clockMinute` stand for `Calendar.getInstance()`. */
    method LoadAlarm(alarmId: int, clockHour: Int32, clockMinute: Int32)
      modifies this
      ensures alarmId == NEW_ALARM_ID ==>
        uiState == old(uiState).(hour := clockHour, minute := clockMinute, isDataLoaded := true) &&
        editingAlarm == old(editingAlarm)
      ensures alarmId != NEW_ALARM_ID && alarmId in repository.alarms ==>
        editingAlarm == Some(repository.alarms[alarmId]) &&
        uiState == ShowAlarm(old(uiState), repository.alarms[alarmId])
      ensures alarmId != NEW_ALARM_ID && alarmId !in repository.alarms ==>
        uiState == old(uiState).(isLoading := false, isDataLoaded := true) &&
        editingAlarm == old(editingAlarm)
    {
      if alarmId == NEW_ALARM_ID {
        uiState := uiState.(hour := clockHour, minute := clockMinute, isDataLoaded := true);
        return;
      }
      uiState := uiState.(isLoading := true);
      var alarm := repository.GetAlarmById(alarmId);
      if alarm.Some? {
        editingAlarm := alarm;
        uiState := ShowAlarm(uiState, alarm.value);
      } else {
        uiState := uiState.(isLoading := false, isDataLoaded := true);
      }
    }

    method UpdateLabel(text: string)
      modifies this
      ensures uiState == WithLabel(old(uiState), text) && editingAlarm == old(editingAlarm)
    {
      uiState := WithLabel(uiState, text);
    }

    method UpdateTtsMessage(msg: string)
      modifies this
      ensures uiState == WithTtsMessage(old(uiState), msg) && editingAlarm == old(editingAlarm)
    {
      uiState := WithTtsMessage(uiState, msg);
    }

    method ToggleRepeatDay(day: Int32)
      modifies this
      ensures uiState == old(uiState).(repeatDays := ToggleDay(old(uiState.repeatDays), day))
      ensures editingAlarm == old(editingAlarm)
    {
      uiState := uiState.(repeatDays := ToggleDay(uiState.repeatDays, day));
    }

    method UpdateMusicUri(uri: Option<string>)
      modifies this
      ensures uiState == old(uiState).(musicUri := uri) && editingAlarm == old(editingAlarm)
    {
      uiState := uiState.(musicUri := uri);
    }

    method ClearDuplicateError()
      modifies this
      ensures uiState == old(uiState).(isDuplicateTime := false) && editingAlarm == old(editingAlarm)
    {
      uiState := uiState.(isDuplicateTime := false);
    }

    /** `saveAlarm`: refused, with the duplicate-time flag raised, when the alarm
        found at that time is another one; otherwise the alarm is stored through
        the save use case and the screen asks to navigate back. */
    method SaveAlarm(hour: Int32, minute: Int32, now: int) returns (saved: bool, effects: seq<Effect>)
      requires repository.Valid() && saveAlarmUseCase.repository.Valid()
      modifies this, saveAlarmUseCase.repository, saveAlarmUseCase.scheduler
      ensures editingAlarm == old(editingAlarm)
      ensures !saved ==>
        (exists id :: id in old(repository.alarms) &&
          old(repository.alarms)[id].hour == hour && old(repository.alarms)[id].minute == minute &&
          (editingAlarm.None? || id != editingAlarm.value.id))
      ensures (forall id :: (id in old(repository.alarms) &&
          old(repository.alarms)[id].hour == hour && old(repository.alarms)[id].minute == minute) ==>
          editingAlarm.Some? && id == editingAlarm.value.id) ==> saved
      ensures !saved ==>
        uiState == old(uiState).(isDuplicateTime := true) && effects == [] &&
        saveAlarmUseCase.repository.alarms == old(saveAlarmUseCase.repository.alarms) &&
        saveAlarmUseCase.scheduler.timers == old(saveAlarmUseCase.scheduler.timers)
      ensures saved ==>
        var a := AlarmToSave(old(editingAlarm), old(uiState), hour, minute);
        uiState == old(uiState).(isNavigateBack := true) &&
        |effects| == 2 && effects[0] == Saved(a) &&
        exists savedId :: (a.id != 0 ==> savedId == a.id) &&
          (a.id == 0 ==> savedId !in old(saveAlarmUseCase.repository.alarms)) &&
          effects[1] == Scheduled(a.(id := savedId)) &&
          saveAlarmUseCase.repository.alarms ==
            old(saveAlarmUseCase.repository.alarms)[savedId := a.(id := savedId)] &&
          saveAlarmUseCase.scheduler.timers ==
            WithSchedule(old(saveAlarmUseCase.scheduler.timers), a.(id := savedId), now)
    {
      var existing := repository.GetAlarmByTime(hour, minute);
      if IsDuplicate(existing, editingAlarm) {
        uiState := uiState.(isDuplicateTime := true);
        return false, [];
      }
      var alarm := AlarmToSave(editingAlarm, uiState, hour, minute);
      var savedId;
      savedId, effects := saveAlarmUseCase.Invoke(alarm, now);
      uiState := uiState.(isNavigateBack := true);
      saved := true;
    }

    /** `deleteAlarm`: nothing happens while no alarm is loaded; otherwise the
        loaded alarm is deleted through the delete use case and the screen asks
        to navigate back. */
    method DeleteAlarm() returns (effects: seq<Effect>)
      requires deleteAlarmUseCase.repository.Valid()
      modifies this, deleteAlarmUseCase.repository, deleteAlarmUseCase.scheduler
      ensures editingAlarm == old(editingAlarm)
      ensures editingAlarm.None? ==>
        effects == [] && uiState == old(uiState) &&
        deleteAlarmUseCase.repository.alarms == old(deleteAlarmUseCase.repository.alarms) &&
        deleteAlarmUseCase.scheduler.timers == old(deleteAlarmUseCase.scheduler.timers)
      ensures editingAlarm.Some? ==>
        effects == [Cancelled(editingAlarm.value), Deleted(editingAlarm.value)] &&
        uiState == old(uiState).(isNavigateBack := true) &&
        deleteAlarmUseCase.repository.alarms ==
          old(deleteAlarmUseCase.repository.alarms) - {editingAlarm.value.id} &&
        deleteAlarmUseCase.scheduler.timers ==
          WithoutTimer(old(deleteAlarmUseCase.scheduler.timers), editingAlarm.value)
    {
      if editingAlarm.None? {
        return [];
      }
      effects := deleteAlarmUseCase.Invoke(editingAlarm.value);
      uiState := uiState.(isNavigateBack := true);
    }
  }
}
