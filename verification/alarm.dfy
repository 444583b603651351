/** The alarm record shared by every other module, with the Kotlin integer
    widths it is declared with and its constructor defaults. */
module Alarms {

  const INT_MIN: int := -0x8000_0000
  const INT_MAX: int := 0x7FFF_FFFF

  /** Kotlin `Int`. */
  type Int32 = x: int | INT_MIN <= x <= INT_MAX

  datatype Option<T> = None | Some(value: T)

  /** The alarm id `getLongExtra(EXTRA_ALARM_ID, -1L)` yields when an intent
      carries none. */
  const NO_ALARM_ID: int := -1

  predicate NoDuplicates<T(==)>(s: seq<T>) {
    forall i, j :: 0 <= i < j < |s| ==> s[i] != s[j]
  }

  /** A Kotlin `Set<Int>` as built by `setOf`/`toSet`/`+`/`-`: a linked hash set,
      that is, distinct elements in insertion order. */
  type DaySet = s: seq<Int32> | NoDuplicates(s)

  /** Calendar weekday numbers: SUNDAY = 1, MONDAY = 2, ..., SATURDAY = 7. */
  const SUNDAY: int := 1
  const MONDAY: int := 2
  const TUESDAY: int := 3
  const WEDNESDAY: int := 4
  const THURSDAY: int := 5
  const FRIDAY: int := 6
  const SATURDAY: int := 7

  predicate IsWeekday(d: int) {
    SUNDAY <= d <= SATURDAY
  }

  /** The elements of a day set, as a mathematical set. */
  function Elements(days: seq<Int32>): (r: set<int>)
    ensures forall d :: d in r <==> d in days
  {
    set d | d in days :: d as int
  }

  datatype Alarm = Alarm(
    id: int,  // a `Long` row id; see README for why its width is not kept
    hour: Int32,
    minute: Int32,
    labelText: string,  // `label` (a keyword in Dafny)
    ttsMessage: string,
    repeatDays: DaySet,
    musicUri: Option<string>,
    isEnabled: bool,
    isPuzzleEnabled: bool,
    alarmIntervalMinutes: Int32,
    repeatCount: Int32,
    isVibrationEnabled: bool,
    isTtsEnabled: bool,
    isMusicEnabled: bool)
  {
    /** An empty repeat set means "ring once, at the next occurrence". */
    predicate IsOneShot() {
      repeatDays == []
    }
  }

  /** `Alarm(hour = h, minute = m)`: every other field takes its declared default. */
  function NewAlarm(hour: Int32, minute: Int32): (a: Alarm)
    ensures a.id == 0 && a.hour == hour && a.minute == minute
    ensures a.IsOneShot() && a.isEnabled
    ensures a.labelText == "" && a.ttsMessage == "" && a.musicUri == None
    ensures a.alarmIntervalMinutes == 5 && a.repeatCount == 1
    ensures !a.isPuzzleEnabled && !a.isVibrationEnabled && !a.isTtsEnabled && !a.isMusicEnabled
  {
    Alarm(0, hour, minute, "", "", [], None, true, false, 5, 1, false, false, false)
  }
}
