# SageAlarm alarm lifecycle, modelled in Dafny

SageAlarm is an Android alarm clock. An alarm has a time of day and a set of
repeat weekdays. It can also speak a message (TTS), play a tone, vibrate, and
ask for a number puzzle before it may be dismissed. This project models the
logic that decides when and how an alarm rings:

- **`Alarms`** (`alarm.dfy`): the `Alarm` record and its defaults.
- **`Scheduler`** (`scheduler.dfy`): `AlarmManagerScheduler`.
  - `NextTriggerTime` is the next firing instant: the one-shot roll-over, and the 0..7-day scan for repeat days.
  - The class keeps the OS alarm manager's table of pending wake-ups, keyed by request code.
  - `Schedule` and `Cancel` edit that table.
- **`Repository`** (`repository.dfy`): the alarms table as a map from row id to alarm, with the queries the other parts call.
- **`UseCases`** (`usecases.dfy`): the save, toggle and delete use cases. Each returns the calls it made, in order.
- **`Receiver`** (`receiver.dfy`): `AlarmReceiver`, covering re-arming on trigger, re-arming every enabled alarm after boot, and action dispatch.
- **`RingService`** (`service.dfy`): `AlarmService`'s ring loop, which ends with `stopSelf()`.
  - The loop runs up to `maxRings` one-minute cycles of speech, tone and vibration, separated by the alarm's interval.
  - The loop emits a trace of events.
  - A dismissal oracle says at which read of the `isDismissed` flag it is first seen set.
- **`Dismiss`** (`dismiss.dfy`): `DismissViewModel`'s number puzzle.
  - Five distinct numbers from 1..99 are tapped from the largest down.
  - A wrong tap deals a new puzzle.
  - Positions are drawn with a bounded retry loop.
- **`AlarmMapper`** (`mapper.dfy`): the conversion between the domain alarm and the stored row, including the comma-separated repeat-day codec.
- **`AlarmEdit`** (`edit.dfy`): `AlarmEditViewModel`, covering the form reducers, load, save with the duplicate-time rule, and delete.
- **`AlarmListFormat`** (`listformat.dfy`): the list card's texts, namely the twelve-hour time, the 오전/오후 label and the repeat-day initials.
- **`Text`** (`text.dfy`): the Kotlin string functions the above rely on (`toString`, `toIntOrNull`, `trim`, `isBlank`, `split`, `joinToString`).

Time is an integer count of milliseconds since 1970-01-01 00:00 local time. Every day lasts 86 400 000 ms. The Calendar weekday of day `d` is `(d + 4) % 7 + 1`, with Sunday = 1 … Saturday = 7. A day set (`DaySet`) is a sequence without duplicates. This mirrors Kotlin's insertion-ordered `LinkedHashSet`, so `joinToString` order is kept exactly.

A few behaviours of the code are easy to misread and are modelled as written:

- **Puzzle order.** Puzzle targets are tapped largest first (`DismissViewModel.kt:80`).
- **"Repeat forever".** `repeatCount = -1` means `Int.MAX_VALUE` cycles (`AlarmService.kt:79`). That is finitely many, so the service still stops itself eventually; see `RepeatForeverIsBounded`.
- **One-shot alarms.** A one-shot alarm is neither re-armed nor disabled after it fires (`AlarmReceiver.kt:46-49`).
- **No trigger.** The scan can end without a trigger (`AlarmManagerScheduler.kt:78`). `Scheduler.TriggerNoneIff` shows this happens exactly when a repeating alarm holds no weekday in 1..7. The stored text can hold such days, because `AlarmMapper.kt:12` keeps any integer.

## Model

| member | source | states |
|---|---|---|
| Alarms.NewAlarm | app/src/main/kotlin/com/sagealarm/domain/model/Alarm.kt:3-18 | A fresh alarm has id 0, no repeat days (one-shot) and is enabled. It has interval 5 and repeat count 1, and puzzle, vibration, TTS and music are all off. |
| Text.ParseIntOfIntToString | app/src/main/kotlin/com/sagealarm/data/local/db/AlarmMapper.kt:12 | `toIntOrNull` reads back every `Int` that `toString` wrote. |
| Text.SplitJoin | app/src/main/kotlin/com/sagealarm/data/local/db/AlarmMapper.kt:12 | Splitting on a separator undoes joining pieces that do not contain it. |
| AlarmMapper.ToDomain | app/src/main/kotlin/com/sagealarm/data/local/db/AlarmMapper.kt:5-21 | Every field is copied unchanged except the repeat days, which are decoded from the row's string. |
| AlarmMapper.ToEntity | app/src/main/kotlin/com/sagealarm/data/local/db/AlarmMapper.kt:23-38 | Every field is copied unchanged except the repeat days, which are stored as their comma-joined rendering. |
| AlarmMapper.DecodeDays | app/src/main/kotlin/com/sagealarm/data/local/db/AlarmMapper.kt:11-12 | A blank string decodes to the empty set. Otherwise the set holds exactly the values of the comma-separated tokens that parse as integers after trimming. |
| AlarmMapper.ParseTokens | app/src/main/kotlin/com/sagealarm/data/local/db/AlarmMapper.kt:12 | Its result holds a value exactly when some token, once trimmed, parses to it. Tokens that are not integers are dropped. |
| AlarmMapper.Distinct | app/src/main/kotlin/com/sagealarm/data/local/db/AlarmMapper.kt:12 | `toSet()` gives a duplicate-free list holding exactly the values seen. |
| AlarmMapper.EncodeEmpty | app/src/main/kotlin/com/sagealarm/data/local/db/AlarmMapper.kt:29 | The empty set is stored as "". |
| AlarmMapper.ParseRendered | app/src/main/kotlin/com/sagealarm/data/local/db/AlarmMapper.kt:12 | Every rendered element parses back, so decoding drops no token and keeps their order. |
| AlarmMapper.DistinctKeepsDistinct | app/src/main/kotlin/com/sagealarm/data/local/db/AlarmMapper.kt:12 | De-duplicating a list that has no duplicates keeps it as it is. |
| AlarmMapper.DecodeEncode | app/src/main/kotlin/com/sagealarm/data/local/db/AlarmMapper.kt:11-29 | Decoding the encoding of a day set gives back the same set, in the same order. |
| AlarmMapper.EncodeNotBlank | app/src/main/kotlin/com/sagealarm/data/local/db/AlarmMapper.kt:29 | A non-empty set never encodes to a blank string. |
| AlarmMapper.RoundTrip | app/src/main/kotlin/com/sagealarm/data/local/db/AlarmMapper.kt:5-38 | `toDomain(toEntity(a)) == a` for every alarm. |
| AlarmMapper.NormaliseStable | app/src/main/kotlin/com/sagealarm/data/local/db/AlarmMapper.kt:5-38 | `toDomain(toEntity(toDomain(e))) == toDomain(e)` for every row. |
| Scheduler.Weekday | app/src/main/kotlin/com/sagealarm/service/AlarmManagerScheduler.kt:73 | `DAY_OF_WEEK` is always a Calendar weekday, 1..7. |
| Scheduler.ScanFrom | app/src/main/kotlin/com/sagealarm/service/AlarmManagerScheduler.kt:65-78 | The scan returns the candidate of the first qualifying day ahead (on a repeat day and strictly after now), with no earlier day qualifying. It returns None only when no day from 0 to 7 qualifies. |
| Scheduler.NextTriggerTime | app/src/main/kotlin/com/sagealarm/service/AlarmManagerScheduler.kt:48-79 | A one-shot alarm always has a trigger. |
| Scheduler.SlotFields | app/src/main/kotlin/com/sagealarm/service/AlarmManagerScheduler.kt:50-55 | A slot lies on its day, at hour:minute with second and millisecond zero. |
| Scheduler.OneShotTrigger | app/src/main/kotlin/com/sagealarm/service/AlarmManagerScheduler.kt:57-62 | A one-shot alarm fires today at hour:minute if that is strictly after now, otherwise exactly one day later. The result always lies in (now, now + 1 day]. |
| Scheduler.OneShotAtNowRollsOver | app/src/main/kotlin/com/sagealarm/service/AlarmManagerScheduler.kt:58 | A one-shot slot equal to now rolls over to tomorrow. |
| Scheduler.TriggerAligned | app/src/main/kotlin/com/sagealarm/service/AlarmManagerScheduler.kt:50-72 | Every returned instant is the alarm's hour:minute with second and millisecond zero. |
| Scheduler.RecurringTriggerQualifies | app/src/main/kotlin/com/sagealarm/service/AlarmManagerScheduler.kt:73-75 | A recurring trigger is strictly after now, on a repeat day, and is the candidate of the first qualifying scanned day. |
| Scheduler.RecurringTriggerEarliest | app/src/main/kotlin/com/sagealarm/service/AlarmManagerScheduler.kt:65-77 | No hour:minute slot on a repeat day lies strictly between now and the trigger. |
| Scheduler.RecurringTriggerExists | app/src/main/kotlin/com/sagealarm/service/AlarmManagerScheduler.kt:65-77 | With a real weekday among the repeat days, the trigger exists and lies at most 7 days after now. |
| Scheduler.WeekdayAhead | app/src/main/kotlin/com/sagealarm/service/AlarmManagerScheduler.kt:65-73 | Every weekday comes round within 1..7 days, and it takes 7 days only for today's weekday. |
| Scheduler.TriggerWithinWeek | app/src/main/kotlin/com/sagealarm/service/AlarmManagerScheduler.kt:65-77 | Whatever the scan finds is in (now, now + 7 days]. |
| Scheduler.WeekAheadOnlyAfterTodayPassed | app/src/main/kotlin/com/sagealarm/service/AlarmManagerScheduler.kt:65-77 | Scan day 7 is accepted only when today's slot has passed, and it then lies at most a week ahead. |
| Scheduler.TriggerNoneIff | app/src/main/kotlin/com/sagealarm/service/AlarmManagerScheduler.kt:57-78 | There is no trigger exactly when the alarm repeats and none of its repeat days is a weekday in 1..7. |
| Scheduler.RequestCode | app/src/main/kotlin/com/sagealarm/service/AlarmManagerScheduler.kt:42 | The request code is in [0, 2^31 - 1] and equals the id for ids in that range. |
| Scheduler.RequestCodeAliases | app/src/main/kotlin/com/sagealarm/service/AlarmManagerScheduler.kt:35-46 | Ids that differ by a multiple of 2^31 share one request code, and so share one pending wake-up. |
| Scheduler.WithSchedule | app/src/main/kotlin/com/sagealarm/service/AlarmManagerScheduler.kt:19-27 | With no trigger the table is unchanged. Otherwise the alarm's request code maps to (trigger, id). No other code is touched. |
| Scheduler.WithoutTimer | app/src/main/kotlin/com/sagealarm/service/AlarmManagerScheduler.kt:29-33 | The alarm's request code is gone and every other entry is unchanged. |
| Scheduler.AlarmManagerScheduler.Schedule | app/src/main/kotlin/com/sagealarm/service/AlarmManagerScheduler.kt:19-27 | The table becomes `WithSchedule` of the old table. Without a trigger nothing is registered. |
| Scheduler.AlarmManagerScheduler.FindNextTrigger | app/src/main/kotlin/com/sagealarm/service/AlarmManagerScheduler.kt:48-79 | The loop as written returns `NextTriggerTime`. |
| Scheduler.AlarmManagerScheduler.Cancel | app/src/main/kotlin/com/sagealarm/service/AlarmManagerScheduler.kt:29-33 | The table becomes `WithoutTimer` of the old table. `schedule` and `cancel` of one id use the same request code. |
| Repository.Remove | app/src/main/kotlin/com/sagealarm/data/local/db/AlarmDao.kt:26-27 | The scan order without the deleted id keeps every other id and stays duplicate-free. |
| Repository.AlarmRepository.GetAlarmById | app/src/main/kotlin/com/sagealarm/data/local/db/AlarmDao.kt:17-18 | The result is Some exactly when the id is stored, and then it is the stored alarm. |
| Repository.AlarmRepository.GetEnabledAlarms | app/src/main/kotlin/com/sagealarm/data/local/db/AlarmDao.kt:32-33 | The result lists every enabled stored alarm exactly once, as stored, and nothing else. |
| Repository.AlarmRepository.SaveAlarm | app/src/main/kotlin/com/sagealarm/data/local/db/AlarmDao.kt:20-21 | Id 0 gets a fresh row id; any other id replaces that row. The map gains or replaces exactly that entry, with the returned id. |
| Repository.AlarmRepository.DeleteAlarm | app/src/main/kotlin/com/sagealarm/data/local/db/AlarmDao.kt:26-27 | Exactly the alarm's id is removed. |
| Repository.AlarmRepository.SetAlarmEnabled | app/src/main/kotlin/com/sagealarm/data/local/db/AlarmDao.kt:29-30 | Only the flag of that row changes. A missing id changes nothing. |
| Repository.AlarmRepository.GetAlarmByTime | app/src/main/kotlin/com/sagealarm/data/local/db/AlarmDao.kt:35-36 | Some is a stored alarm at that hour:minute. None means no stored alarm has that time. |
| UseCases.SaveAlarmUseCase.Invoke | app/src/main/kotlin/com/sagealarm/domain/usecase/SaveAlarmUseCase.kt:12-21 | The save comes first, and then exactly one scheduler call on the copy carrying the saved id: schedule if enabled, cancel otherwise. Afterwards a disabled alarm has no wake-up. |
| UseCases.ToggleAlarmUseCase.Invoke | app/src/main/kotlin/com/sagealarm/domain/usecase/ToggleAlarmUseCase.kt:11-19 | The flag is written, then the alarm is re-read. A missing id makes no scheduler call. Otherwise the re-read copy, carrying the new flag, is scheduled or cancelled. |
| UseCases.DeleteAlarmUseCase.Invoke | app/src/main/kotlin/com/sagealarm/domain/usecase/DeleteAlarmUseCase.kt:12-15 | The cancel comes before the delete. Afterwards the id has neither a row nor a wake-up. |
| UseCases.AfterDelete | app/src/main/kotlin/com/sagealarm/domain/usecase/DeleteAlarmUseCase.kt:12-15 | After a delete, the id is absent from both the alarms and the wake-up table. |
| UseCases.DeleteIdempotent | app/src/main/kotlin/com/sagealarm/domain/usecase/DeleteAlarmUseCase.kt:12-15 | Deleting an already-deleted alarm leaves the state unchanged. |
| UseCases.DeleteKeepsOthers | app/src/main/kotlin/com/sagealarm/domain/usecase/DeleteAlarmUseCase.kt:12-15 | Every other alarm, and every wake-up under another request code, is unchanged. |
| Receiver.TriggerEffects | app/src/main/kotlin/com/sagealarm/service/AlarmReceiver.kt:40-59 | Id -1 does nothing. The ring service starts exactly when the alarm exists. A re-arm happens exactly when it exists and repeats. A re-arm always schedules the stored alarm and comes before the service start, which is the last call. |
| Receiver.RearmAllKeepsOthers | app/src/main/kotlin/com/sagealarm/service/AlarmReceiver.kt:61-65 | Re-arming a list never touches a request code that no listed alarm maps to. |
| Receiver.RearmAllArms | app/src/main/kotlin/com/sagealarm/service/AlarmReceiver.kt:61-65 | With distinct request codes, every listed alarm that has a trigger ends armed at it. |
| Receiver.BootArmsEveryEnabledAlarm | app/src/main/kotlin/com/sagealarm/service/AlarmReceiver.kt:61-65 | After boot, every enabled alarm with a trigger is armed at it under its own id. |
| Receiver.BootLeavesDisabledAlone | app/src/main/kotlin/com/sagealarm/service/AlarmReceiver.kt:61-65 | After boot, a disabled alarm's wake-up entry is exactly as before. |
| Receiver.WeekdayRecursAfterSeven | app/src/main/kotlin/com/sagealarm/service/AlarmReceiver.kt:47-48 | Within a week, a weekday recurs only on the seventh day. |
| Receiver.SameSlotNextWeek | app/src/main/kotlin/com/sagealarm/service/AlarmReceiver.kt:47-48 | Two ordered slots at the same time on the same weekday, at most a week apart, are exactly a week apart. |
| Receiver.WeeklyAlarmRearmsOneWeekLater | app/src/main/kotlin/com/sagealarm/service/AlarmReceiver.kt:46-49 | A single-day recurring alarm, re-armed at the instant it fires, is armed again exactly 7 days later. |
| Receiver.AlarmReceiver.HandleAlarmTrigger | app/src/main/kotlin/com/sagealarm/service/AlarmReceiver.kt:40-59 | The calls are `TriggerEffects`. Only an existing recurring alarm changes the wake-up table, by `WithSchedule`. |
| Receiver.AlarmReceiver.RescheduleAllAlarms | app/src/main/kotlin/com/sagealarm/service/AlarmReceiver.kt:61-65 | The enabled alarms are read once, then each is scheduled once, in listing order. |
| Receiver.AlarmReceiver.OnReceive | app/src/main/kotlin/com/sagealarm/service/AlarmReceiver.kt:26-38 | It dispatches on the action, and `finish()` is always the last call. A trigger makes the calls of `TriggerEffects` and re-arms only an existing recurring alarm. Boot reads the enabled alarms once, then schedules each in listing order, and the table becomes `RearmAll` of that listing. Any other action does nothing else. |
| RingService.MaxRings | app/src/main/kotlin/com/sagealarm/service/AlarmService.kt:79 | -1 maps to `Int.MAX_VALUE`, and any other value is used as it is. |
| RingService.Cycles | app/src/main/kotlin/com/sagealarm/service/AlarmService.kt:79-82 | The cycle count never exceeds `Int.MAX_VALUE`. |
| RingService.ToneOf | app/src/main/kotlin/com/sagealarm/service/AlarmService.kt:129-133 | The alarm's URI is used exactly when it is set and not blank; otherwise the default alarm tone. |
| RingService.ChannelsOf | app/src/main/kotlin/com/sagealarm/service/AlarmService.kt:84-105 | Speech runs iff TTS is on and the message is not blank. The tone runs iff music is on, and vibration iff vibration is on. |
| RingService.Pause | app/src/main/kotlin/com/sagealarm/service/AlarmService.kt:112-114 | The pause after a cycle is empty or a single wait, and a wait lasts `alarmIntervalMinutes * 60000` ms. |
| RingService.RingSplit | app/src/main/kotlin/com/sagealarm/service/AlarmService.kt:81-116 | The events of the first i cycles, followed by the rest of the loop, are the whole loop. |
| RingService.RingTraceStarts | app/src/main/kotlin/com/sagealarm/service/AlarmService.kt:81-116 | The number of cycles that start is all of them, unless the flag is seen at an earlier loop test. |
| RingService.RingTraceWaits | app/src/main/kotlin/com/sagealarm/service/AlarmService.kt:112-114 | There is one wait after every cycle but the last possible one, until the flag is seen. |
| RingService.RingTraceShape | app/src/main/kotlin/com/sagealarm/service/AlarmService.kt:81-118 | In every run, each cycle starts the alarm's channels and is followed at once by stopping them, before any wait or further cycle. Every wait lasts `alarmIntervalMinutes * 60000` ms, and `stopSelf` is last. |
| RingService.RingTraceStops | app/src/main/kotlin/com/sagealarm/service/AlarmService.kt:118 | The service stops itself exactly when the flag is never seen at a loop test. |
| RingService.UndismissedRun | app/src/main/kotlin/com/sagealarm/service/AlarmService.kt:81-118 | Without dismissal, exactly `maxRings` cycles and `maxRings - 1` waits happen, then `stopSelf`. |
| RingService.DismissedRun | app/src/main/kotlin/com/sagealarm/service/AlarmService.kt:81-118 | Once the flag is seen, no cycle or wait begins, and the service does not stop itself unless every cycle had already run. |
| RingService.DefaultAlarmRingsOnce | app/src/main/kotlin/com/sagealarm/service/AlarmService.kt:79-118 | A default alarm rings one silent cycle, never waits, and stops itself. |
| RingService.RepeatForeverIsBounded | app/src/main/kotlin/com/sagealarm/service/AlarmService.kt:79 | `repeatCount = -1` rings `Int.MAX_VALUE` cycles. |
| RingService.AlarmService.OnStartCommand | app/src/main/kotlin/com/sagealarm/service/AlarmService.kt:59-122 | Id -1 only stops the service. A missing alarm stops it with zero cycles. Otherwise the events are the foreground start, the dismiss screen, and then the ring loop. Every channel ends released once a cycle has run. When none runs, speech, tone and vibration are left as they were. |
| RingService.AlarmService.RingLoop | app/src/main/kotlin/com/sagealarm/service/AlarmService.kt:77-119 | The loop's events are `RingTrace`, so the counts and stop above hold, and they have the `RingShaped` order. Every channel ends released once a cycle has run; otherwise the channels are untouched. |
| RingService.AlarmService.StartChannels | app/src/main/kotlin/com/sagealarm/service/AlarmService.kt:84-105 | A cycle starts exactly the channels `ChannelsOf` names for the alarm. |
| RingService.AlarmService.PlayAlarmSound | app/src/main/kotlin/com/sagealarm/service/AlarmService.kt:124-141 | The player plays the alarm's tone, and nothing else changes. |
| RingService.AlarmService.StartVibration | app/src/main/kotlin/com/sagealarm/service/AlarmService.kt:143-158 | Vibration runs, and nothing else changes. |
| RingService.AlarmService.StopAllChannels | app/src/main/kotlin/com/sagealarm/service/AlarmService.kt:160-165 | Speech, player and vibration are all stopped, and the flag is kept. |
| RingService.AlarmService.OnDestroy | app/src/main/kotlin/com/sagealarm/service/AlarmService.kt:176-187 | The flag is set and every channel is released. |
| Dismiss.InsertKeepsOrder | app/src/main/kotlin/com/sagealarm/presentation/dismiss/DismissViewModel.kt:80 | Inserting into a descending list keeps it descending and adds exactly one element. |
| Dismiss.SortDescending | app/src/main/kotlin/com/sagealarm/presentation/dismiss/DismissViewModel.kt:80 | The result is descending and a permutation of the input. |
| Dismiss.WithoutValue | app/src/main/kotlin/com/sagealarm/presentation/dismiss/DismissViewModel.kt:67 | The result is no longer than the input, and the value no longer occurs. |
| Dismiss.WithoutValueCounts | app/src/main/kotlin/com/sagealarm/presentation/dismiss/DismissViewModel.kt:67 | Every occurrence of the tapped value is dropped; every other value is kept as often as it was shown. |
| Dismiss.TapOutcome | app/src/main/kotlin/com/sagealarm/presentation/dismiss/DismissViewModel.kt:60-76 | A tap is ignored once dismissed or when no target is expected. A right tap advances and dismisses or filters. A wrong tap deals anew. |
| Dismiss.RightTap | app/src/main/kotlin/com/sagealarm/presentation/dismiss/DismissViewModel.kt:63-72 | A right tap advances by one and removes exactly the tapped value. It dismisses exactly at the fifth target, and consistency is kept. |
| Dismiss.ShownAfterRightTap | app/src/main/kotlin/com/sagealarm/presentation/dismiss/DismissViewModel.kt:67-71 | After a right tap the values shown are exactly the targets after it. |
| Dismiss.TapKeepsConsistent | app/src/main/kotlin/com/sagealarm/presentation/dismiss/DismissViewModel.kt:60-76 | Every tap that does not deal anew keeps the shown values equal to the untapped targets. |
| Dismiss.TapAllKeepsConsistent | app/src/main/kotlin/com/sagealarm/presentation/dismiss/DismissViewModel.kt:60-76 | So does any run of such taps. |
| Dismiss.TapTargetsInOrder | app/src/main/kotlin/com/sagealarm/presentation/dismiss/DismissViewModel.kt:63-72 | Tapping the next targets in order advances by one per tap, and dismisses exactly on reaching the fifth. |
| Dismiss.SolvingDismisses | app/src/main/kotlin/com/sagealarm/presentation/dismiss/DismissViewModel.kt:66-69 | On a fresh puzzle, tapping the targets in order dismisses on exactly the fifth tap and not before. |
| Dismiss.TapAfterDismissal | app/src/main/kotlin/com/sagealarm/presentation/dismiss/DismissViewModel.kt:61 | Taps after dismissal change nothing. |
| Dismiss.DistinctTargets | app/src/main/kotlin/com/sagealarm/presentation/dismiss/DismissViewModel.kt:79-80 | The sorted targets are five distinct numbers in 1..99. |
| Dismiss.Placed | app/src/main/kotlin/com/sagealarm/presentation/dismiss/DismissViewModel.kt:83-89 | There is one item per generated value, in generation order, each at its position. |
| Dismiss.DealtIsFresh | app/src/main/kotlin/com/sagealarm/presentation/dismiss/DismissViewModel.kt:78-91 | A deal from a shuffle of 1..99 is consistent, has nothing tapped and is not dismissed, and shows the first five shuffled numbers in order. |
| Dismiss.Kept | app/src/main/kotlin/com/sagealarm/presentation/dismiss/DismissViewModel.kt:93-114 | One position is kept per entry of the attempts list. |
| Dismiss.KeptAt | app/src/main/kotlin/com/sagealarm/presentation/dismiss/DismissViewModel.kt:98-111 | The k-th kept position is the last draw of its own attempts. |
| Dismiss.DismissViewModel.constructor | app/src/main/kotlin/com/sagealarm/presentation/dismiss/DismissViewModel.kt:47-54 | The puzzle flag is the alarm's, or false when the alarm is missing, and a fresh puzzle is dealt. |
| Dismiss.DismissViewModel.Dismiss | app/src/main/kotlin/com/sagealarm/presentation/dismiss/DismissViewModel.kt:56-58 | Only the dismissed flag is set, so a second call changes nothing. |
| Dismiss.DismissViewModel.OnNumberClicked | app/src/main/kotlin/com/sagealarm/presentation/dismiss/DismissViewModel.kt:60-76 | The new state is `Tap` of the old one. A wrong tap leaves a freshly dealt puzzle with no progress. |
| Dismiss.DismissViewModel.GeneratePuzzle | app/src/main/kotlin/com/sagealarm/presentation/dismiss/DismissViewModel.kt:78-91 | The targets are the first five shuffled numbers, largest first. Nothing is tapped, nothing is dismissed, and the numbers are shown in shuffled order. |
| Dismiss.DismissViewModel.GenerateNonOverlappingPositions | app/src/main/kotlin/com/sagealarm/presentation/dismiss/DismissViewModel.kt:93-114 | It returns exactly `count` positions, each after at most 100 draws. Every position accepted before the limit keeps clear of the earlier ones. |
| AlarmEdit.DefaultUiState | app/src/main/kotlin/com/sagealarm/presentation/alarm/edit/AlarmEditViewModel.kt:18-29 | The form starts at 08:00 with empty fields and every flag false. |
| AlarmEdit.WithLabel | app/src/main/kotlin/com/sagealarm/presentation/alarm/edit/AlarmEditViewModel.kt:78-80 | A label of at most 50 characters becomes the label. A longer one leaves the state unchanged. Nothing else changes. |
| AlarmEdit.WithTtsMessage | app/src/main/kotlin/com/sagealarm/presentation/alarm/edit/AlarmEditViewModel.kt:82-84 | The same rule and cap apply to the TTS message. |
| AlarmEdit.TypingKeepsCaps | app/src/main/kotlin/com/sagealarm/presentation/alarm/edit/AlarmEditViewModel.kt:130-131 | Typing never pushes a text over its cap. |
| AlarmEdit.DropDay | app/src/main/kotlin/com/sagealarm/presentation/alarm/edit/AlarmEditViewModel.kt:88 | `set - day` keeps every other day and no duplicate. |
| AlarmEdit.ToggleDay | app/src/main/kotlin/com/sagealarm/presentation/alarm/edit/AlarmEditViewModel.kt:86-92 | Only the membership of the toggled day flips. |
| AlarmEdit.ToggleTwice | app/src/main/kotlin/com/sagealarm/presentation/alarm/edit/AlarmEditViewModel.kt:86-92 | Toggling twice restores the set, and for an unselected day also its order. |
| AlarmEdit.AlarmToSave | app/src/main/kotlin/com/sagealarm/presentation/alarm/edit/AlarmEditViewModel.kt:107-115 | The stored alarm has the chosen hour:minute, the form's texts, days and tone, and is enabled. |
| AlarmEdit.SaveKeepsHiddenSettings | app/src/main/kotlin/com/sagealarm/presentation/alarm/edit/AlarmEditViewModel.kt:107 | The edited alarm's id and hidden settings are kept. A new alarm gets id 0 and the defaults. |
| AlarmEdit.ShowAlarm | app/src/main/kotlin/com/sagealarm/presentation/alarm/edit/AlarmEditViewModel.kt:60-71 | A loaded alarm's editable fields are shown, loading ends, and the other flags are kept. |
| AlarmEdit.SaveShownRoundTrip | app/src/main/kotlin/com/sagealarm/presentation/alarm/edit/AlarmEditViewModel.kt:60-115 | Saving a loaded alarm unchanged, at its own time, stores it as it was, enabled. |
| AlarmEdit.AlarmEditViewModel.constructor | app/src/main/kotlin/com/sagealarm/presentation/alarm/edit/AlarmEditViewModel.kt:38-41 | The form starts in its default state with nothing being edited. |
| AlarmEdit.AlarmEditViewModel.LoadAlarm | app/src/main/kotlin/com/sagealarm/presentation/alarm/edit/AlarmEditViewModel.kt:43-76 | Id -1 takes the clock's hour and minute and marks the data loaded. A stored id is shown and becomes the edited alarm. A missing id only ends loading. |
| AlarmEdit.AlarmEditViewModel.UpdateLabel | app/src/main/kotlin/com/sagealarm/presentation/alarm/edit/AlarmEditViewModel.kt:78-80 | The state becomes `WithLabel` of the old one. |
| AlarmEdit.AlarmEditViewModel.UpdateTtsMessage | app/src/main/kotlin/com/sagealarm/presentation/alarm/edit/AlarmEditViewModel.kt:82-84 | The state becomes `WithTtsMessage` of the old one. |
| AlarmEdit.AlarmEditViewModel.ToggleRepeatDay | app/src/main/kotlin/com/sagealarm/presentation/alarm/edit/AlarmEditViewModel.kt:86-92 | Only the days change, by `ToggleDay`. |
| AlarmEdit.AlarmEditViewModel.UpdateMusicUri | app/src/main/kotlin/com/sagealarm/presentation/alarm/edit/AlarmEditViewModel.kt:94 | Only the tone URI changes. |
| AlarmEdit.AlarmEditViewModel.ClearDuplicateError | app/src/main/kotlin/com/sagealarm/presentation/alarm/edit/AlarmEditViewModel.kt:96 | Only the duplicate flag is cleared. |
| AlarmEdit.AlarmEditViewModel.SaveAlarm | app/src/main/kotlin/com/sagealarm/presentation/alarm/edit/AlarmEditViewModel.kt:98-119 | Described after the table. |
| AlarmEdit.AlarmEditViewModel.DeleteAlarm | app/src/main/kotlin/com/sagealarm/presentation/alarm/edit/AlarmEditViewModel.kt:121-127 | Nothing happens while no alarm is loaded. Otherwise the loaded alarm is cancelled and deleted, and the screen navigates back. |
| AlarmListFormat.DayName | app/src/main/kotlin/com/sagealarm/presentation/alarm/list/AlarmListScreen.kt:396-404 | Every weekday has a one-character initial. Other values give "". |
| AlarmListFormat.DayNameReadsBack | app/src/main/kotlin/com/sagealarm/presentation/alarm/list/AlarmListScreen.kt:396-404 | Every weekday has its own initial. |
| AlarmListFormat.Hour12 | app/src/main/kotlin/com/sagealarm/presentation/alarm/list/AlarmListScreen.kt:412-416 | For hours 0..23 the shown hour is in 1..12 and agrees with the hour modulo 12. |
| AlarmListFormat.PeriodLabel | app/src/main/kotlin/com/sagealarm/presentation/alarm/list/AlarmListScreen.kt:357 | 오전 iff hour < 12, 오후 iff hour >= 12. |
| AlarmListFormat.ClockHourReadsBack | app/src/main/kotlin/com/sagealarm/presentation/alarm/list/AlarmListScreen.kt:412-416 | A reader given the shown hour and its 오전/오후 label recovers the hour of the day. |
| AlarmListFormat.Pad2ReadsBack | app/src/main/kotlin/com/sagealarm/presentation/alarm/list/AlarmListScreen.kt:417 | A minute 0..59 is written as exactly two digits that read back as the minute. |
| AlarmListFormat.TimeReadsBack | app/src/main/kotlin/com/sagealarm/presentation/alarm/list/AlarmListScreen.kt:411-418 | The time text splits at ':' into an hour in 1..12 and a two-digit minute. With the 오전/오후 label, they give back the hour of the day. |
| AlarmListFormat.TimeShownUniquely | app/src/main/kotlin/com/sagealarm/presentation/alarm/list/AlarmListScreen.kt:411-418 | Two valid times never show alike. |
| AlarmListFormat.FilterIn | app/src/main/kotlin/com/sagealarm/presentation/alarm/list/AlarmListScreen.kt:421 | The filter keeps exactly the ordered days in the set, in the table's order. |
| AlarmListFormat.OrderedDays | app/src/main/kotlin/com/sagealarm/presentation/alarm/list/AlarmListScreen.kt:406-421 | The listed days are exactly the repeat days that are weekdays, Monday first. |
| AlarmListFormat.RepeatDaysOrderFree | app/src/main/kotlin/com/sagealarm/presentation/alarm/list/AlarmListScreen.kt:420-421 | Two day sets with the same days are shown alike, whatever their order. |
| AlarmListFormat.RepeatDaysReadBack | app/src/main/kotlin/com/sagealarm/presentation/alarm/list/AlarmListScreen.kt:420-421 | The text has one space-separated token per listed day, reading back as that day in order. Values outside 1..7 are not shown. |

`AlarmEdit.AlarmEditViewModel.SaveAlarm` states:

- A save is refused only when some other stored alarm has that hour:minute. Another alarm means any alarm when none is being edited.
- A save is always accepted when the only alarm at that time is the one being edited.
- A refused save raises the duplicate flag, calls nothing, and changes no row or wake-up.
- An accepted save stores `AlarmToSave` through the save use case. It is stored under the edited id, or, for a new alarm, under an id no stored row had. The save is followed by scheduling the stored copy, and the screen asks to navigate back.

## Left out

- RingService.AlarmService.OnStartCommand: an earlier ring loop still running is taken to end at once. `alarmJob?.cancel()` (`AlarmService.kt:66`) cancels it, and its remaining events are not part of the new trace. The channels it left running stay on until the new loop replaces or stops them, as in the app. `ttsPlayer.initialize()` is not modelled.
- Android platform effects are not modelled: ExoPlayer, Vibrator, TextToSpeech, notifications, `startForeground` and `startActivity`. They appear as trace events or as the service's channel fields.
- The TTS speaking job and its 500/200/1000 ms polling inside a cycle are not modelled, because they are timing behaviour inside the one-minute window. A cycle records only which channels it started.
- Coroutine concurrency in `AlarmService` is not modelled. `onDestroy` racing the loop becomes the dismissal oracle, and `scope.cancel()` stopping a pending `delay` is seen at the next flag read. The `AtomicBoolean` is a plain field.
- Calendar time zones and daylight saving are not modelled: every day is 86 400 000 ms. The scan uses one `now` instead of reading the clock once per scanned day.
- Floating-point geometry in the dismiss puzzle is not modelled, including `pow`, the 0.22 distance and `Random.nextFloat`. "Too close" is a parameter and the candidate positions are an input stream. `shuffled()` is an input that must be a permutation of 1..99.
- `DismissViewModel.constructor`: the asynchronous load of `isPuzzleEnabled` is done before the first puzzle is dealt, whereas in the app it may complete later.
- Alarm ids are unbounded integers, so the `Long` width and row-id exhaustion are not modelled. Only the request code's 31-bit truncation is kept.
- `Text.ParseInt` accepts ASCII digits only, whereas `toIntOrNull` also accepts other Unicode decimal digits.
- String lengths are counts of characters, not of UTF-16 code units.
- The repository interface (`AlarmRepository.kt`) does not declare `getAlarmByTime`, although `AlarmEditViewModel.kt:100` calls it. The model gives the repository that query, with the meaning of `AlarmDao.kt:35-36`.
- `AlarmEntity.kt` lacks columns that the mapper reads. The modelled entity has every column the mapper uses.
- The order of a table scan is the order in which rows were first inserted. SQLite does not promise an order without `ORDER BY`.
- `getAlarms()` and the list screen's flow are left out: they are a reactive pass-through.
- Room's `@Update` is left out because no modelled caller uses it.
- `Receiver.BootArmsEveryEnabledAlarm` and `Receiver.BootLeavesDisabledAlone` assume row ids in 0..2^31-1. Larger ids can share request codes (see `Scheduler.RequestCodeAliases`), and then the last one scheduled wins.
- The Compose screens, navigation, settings, sound catalog and dependency injection are not modelled.
