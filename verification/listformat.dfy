/** The texts the alarm list shows on each card: the time on a twelve-hour
    clock, the 오전/오후 (a.m./p.m.) label beside it, and the repeat days as
    Korean day initials, Monday first. */
module AlarmListFormat {
  import opened Alarms
  import opened Text

  /** The label shown before noon (오전) and from noon on (오후). */
  const MORNING: string := "오전"
  const AFTERNOON: string := "오후"

  /** `DAY_ORDER`: Monday first, Sunday last. */
  const DAY_ORDER: seq<int> := [MONDAY, TUESDAY, WEDNESDAY, THURSDAY, FRIDAY, SATURDAY, SUNDAY]

  /** `DAY_NAMES[day] ?: ""`: the Korean initial of a Calendar weekday. */
  function DayName(day: int): (name: string)
    ensures IsWeekday(day) ==> |name| == 1 && ' ' !in name
    ensures !IsWeekday(day) ==> name == ""
  {
    if day == MONDAY then "월"
    else if day == TUESDAY then "화"
    else if day == WEDNESDAY then "수"
    else if day == THURSDAY then "목"
    else if day == FRIDAY then "금"
    else if day == SATURDAY then "토"
    else if day == SUNDAY then "일"
    else ""
  }

  /** The weekday an initial stands for, if any. */
  function DayOfName(name: string): Option<int> {
    if name == "월" then Some(MONDAY)
    else if name == "화" then Some(TUESDAY)
    else if name == "수" then Some(WEDNESDAY)
    else if name == "목" then Some(THURSDAY)
    else if name == "금" then Some(FRIDAY)
    else if name == "토" then Some(SATURDAY)
    else if name == "일" then Some(SUNDAY)
    else None
  }

  /** Every weekday has its own initial. */
  lemma DayNameReadsBack(day: int)
    requires IsWeekday(day)
    ensures DayOfName(DayName(day)) == Some(day)
  {
  }

  /** `hour12` of `formatTime`: 0 shows as 12, 13..23 as 1..11. */
  function Hour12(hour: int): (h: int)
    ensures 0 <= hour <= 23 ==> 1 <= h <= 12 && h % 12 == hour % 12
  {
    if hour == 0 then 12
    else if hour > 12 then hour - 12
    else hour
  }

  /** `"%02d".format(minute)`: zero-padded to two characters; a value that
      already takes two characters or more (a negative one included) is
      written as it is. */
  function Pad2(minute: int): string {
    if 0 <= minute < 10 then "0" + IntToString(minute) else IntToString(minute)
  }

  /** `formatTime(hour, minute)`. */
  function FormatTime(hour: int, minute: int): string {
    IntToString(Hour12(hour)) + ":" + Pad2(minute)
  }

  /** The label beside the time: `if (hour < 12) "오전" else "오후"`. */
  function PeriodLabel(hour: int): (s: string)
    ensures s == MORNING <==> hour < 12
    ensures s == AFTERNOON <==> hour >= 12
  {
    if hour < 12 then MORNING else AFTERNOON
  }

  /** The hour of the day a reader takes from a twelve-hour clock and its label. */
  function ClockHour(hour12: int, period: string): int {
    hour12 % 12 + (if period == AFTERNOON then 12 else 0)
  }

  /** The twelve-hour reading and its label give back the hour of the day. */
  lemma ClockHourReadsBack(hour: int)
    requires 0 <= hour <= 23
    ensures ClockHour(Hour12(hour), PeriodLabel(hour)) == hour
  {
    if hour < 12 {
      assert PeriodLabel(hour) != AFTERNOON;
    }
  }

  /** A minute of the hour is always shown as exactly two digits, read back as
      the same number. */
  lemma Pad2ReadsBack(minute: int)
    requires 0 <= minute <= 59
    ensures |Pad2(minute)| == 2 && AllDigits(Pad2(minute))
    ensures ParseInt(Pad2(minute)) == Some(minute)
  {
    var s := Pad2(minute);
    if minute < 10 {
      assert IntToString(minute) == [DigitChar(minute)];
      assert s[..|s| - 1] == "0";
      assert DigitsValue("0") == 0;
      assert DigitsValue(s) == minute;
    } else {
      assert NatToString(minute) == NatToString(minute / 10) + [DigitChar(minute % 10)];
      ParseIntOfIntToString(minute);
    }
  }

  /** What the card shows for a valid time reads back as that time: the text
      splits at ':' into an hour of 1..12 and a two-digit minute, and together
      with the 오전/오후 label the hour gives back the hour of the day. */
  lemma {:induction false} TimeReadsBack(hour: int, minute: int)
    requires 0 <= hour <= 23 && 0 <= minute <= 59
    ensures var parts := Split(FormatTime(hour, minute), ':');
      |parts| == 2 &&
      ParseInt(parts[0]) == Some(Hour12(hour)) && 1 <= Hour12(hour) <= 12 &&
      |parts[1]| == 2 && ParseInt(parts[1]) == Some(minute) &&
      ClockHour(Hour12(hour), PeriodLabel(hour)) == hour
  {
    var h := IntToString(Hour12(hour));
    var m := Pad2(minute);
    Pad2ReadsBack(minute);
    assert ':' !in h && ':' !in m;
    SplitPiece(h, ':', m);
    SplitWhole(m, ':');
    assert FormatTime(hour, minute) == h + [':'] + m;
    ParseIntOfIntToString(Hour12(hour));
    ClockHourReadsBack(hour);
  }

  /** Two valid times are never shown alike: the card tells every time apart. */
  lemma TimeShownUniquely(h1: int, m1: int, h2: int, m2: int)
    requires 0 <= h1 <= 23 && 0 <= m1 <= 59 && 0 <= h2 <= 23 && 0 <= m2 <= 59
    requires FormatTime(h1, m1) == FormatTime(h2, m2) && PeriodLabel(h1) == PeriodLabel(h2)
    ensures h1 == h2 && m1 == m2
  {
    TimeReadsBack(h1, m1);
    TimeReadsBack(h2, m2);
  }

  /** A day's place in `DAY_ORDER`. */
  function Rank(day: int): int {
    (day + 5) % 7
  }

  /** `order.filter { it in days }`, for an order listed by rising rank. */
  function FilterIn(order: seq<int>, days: seq<Int32>): (r: seq<int>)
    requires forall i, j :: 0 <= i < j < |order| ==> Rank(order[i]) < Rank(order[j])
    ensures forall x :: x in r <==> x in order && x in days
    ensures forall i, j :: 0 <= i < j < |r| ==> Rank(r[i]) < Rank(r[j])
  {
    if order == [] then []
    else
      var rest := FilterIn(order[1..], days);
      if order[0] in days then
        assert forall k :: 0 <= k < |rest| ==> rest[k] in order[1..];
        [order[0]] + rest
      else rest
  }

  /** The days a card lists: the repeat days that are weekdays, Monday first. */
  function OrderedDays(days: seq<Int32>): (r: seq<int>)
    ensures forall d :: d in r <==> IsWeekday(d) && d in days
    ensures forall i, j :: 0 <= i < j < |r| ==> Rank(r[i]) < Rank(r[j])
  {
    FilterIn(DAY_ORDER, days)
  }

  function Names(ds: seq<int>): (r: seq<string>)
    ensures |r| == |ds| && forall i :: 0 <= i < |ds| ==> r[i] == DayName(ds[i])
  {
    if ds == [] then [] else [DayName(ds[0])] + Names(ds[1..])
  }

  /** `formatRepeatDays(days)`: the initials of the listed days, separated by spaces. */
  function FormatRepeatDays(days: seq<Int32>): string {
    Join(Names(OrderedDays(days)), " ")
  }

  /** The filter depends only on which days are in the set, not on their order. */
  lemma {:induction false} FilterInMembership(order: seq<int>, d1: seq<Int32>, d2: seq<Int32>)
    requires forall i, j :: 0 <= i < j < |order| ==> Rank(order[i]) < Rank(order[j])
    requires forall x :: x in order ==> (x in d1 <==> x in d2)
    ensures FilterIn(order, d1) == FilterIn(order, d2)
    decreases |order|
  {
    if order != [] {
      FilterInMembership(order[1..], d1, d2);
    }
  }

  /** Two repeat sets with the same days are shown alike, however they were
      built up. */
  lemma RepeatDaysOrderFree(d1: seq<Int32>, d2: seq<Int32>)
    requires Elements(d1) == Elements(d2)
    ensures FormatRepeatDays(d1) == FormatRepeatDays(d2)
  {
    forall x | x in DAY_ORDER
      ensures x in d1 <==> x in d2
    {
      assert x in Elements(d1) <==> x in Elements(d2);
    }
    FilterInMembership(DAY_ORDER, d1, d2);
  }

  /** The repeat-day text reads back, token by token, as the repeat days that
      are weekdays, Monday first; days outside 1..7 are not shown. */
  lemma RepeatDaysReadBack(days: seq<Int32>)
    requires OrderedDays(days) != []
    ensures var tokens := Split(FormatRepeatDays(days), ' ');
      |tokens| == |OrderedDays(days)| &&
      forall i :: 0 <= i < |tokens| ==> DayOfName(tokens[i]) == Some(OrderedDays(days)[i])
  {
    var ds := OrderedDays(days);
    var names := Names(ds);
    forall i | 0 <= i < |names|
      ensures ' ' !in names[i]
    {
      assert ds[i] in ds;
    }
    SplitJoin(names, ' ');
    forall i | 0 <= i < |names|
      ensures DayOfName(names[i]) == Some(ds[i])
    {
      assert ds[i] in ds;
      DayNameReadsBack(ds[i]);
    }
  }
}
