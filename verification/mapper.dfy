/** Conversion between the domain `Alarm` and the stored row `AlarmEntity`.
    Every field is copied as it is except `repeatDays`, which the row keeps as
    the comma-joined decimal list of the set's elements. */
module AlarmMapper {
  import opened Alarms
  import opened Text

  /** The stored row, with every column the mapper reads and writes. */
  datatype AlarmEntity = AlarmEntity(
    id: int,
    hour: Int32,
    minute: Int32,
    labelText: string,
    ttsMessage: string,
    repeatDays: string,  // e.g. "2,3,4"
    musicUri: Option<string>,
    isEnabled: bool,
    isPuzzleEnabled: bool,
    alarmIntervalMinutes: Int32,
    repeatCount: Int32,
    isVibrationEnabled: bool,
    isTtsEnabled: bool,
    isMusicEnabled: bool)

  /** Each element rendered by `Int.toString`, in iteration order. */
  function RenderDays(days: seq<Int32>): (r: seq<string>)
    ensures |r| == |days|
    ensures forall i :: 0 <= i < |days| ==> r[i] == IntToString(days[i])
  {
    if days == [] then [] else [IntToString(days[0])] + RenderDays(days[1..])
  }

  /** `repeatDays.joinToString(",")`. */
  function EncodeDays(days: seq<Int32>): string {
    Join(RenderDays(days), ",")
  }

  /** `mapNotNull { it.trim().toIntOrNull() }`: the integer tokens, in order,
      with the others dropped. */
  function ParseTokens(tokens: seq<string>): (r: seq<Int32>)
    ensures forall x :: x in r <==> exists t :: t in tokens && ParseInt(Trim(t)) == Some(x)
  {
    if tokens == [] then []
    else
      var rest := ParseTokens(tokens[1..]);
      assert forall t :: t in tokens <==> t == tokens[0] || t in tokens[1..];
      match ParseInt(Trim(tokens[0]))
      case Some(x) => [x] + rest
      case None => rest
  }

  /** `toSet()`: the first occurrence of each value, in order, appended to `seen`. */
  function Distinct(seen: DaySet, s: seq<Int32>): (r: DaySet)
    ensures forall x :: x in r <==> x in seen || x in s
    decreases |s|
  {
    if s == [] then seen
    else if s[0] in seen then Distinct(seen, s[1..])
    else
      var next := seen + [s[0]];
      assert NoDuplicates(next);
      Distinct(next, s[1..])
  }

  /** `if (isBlank()) emptySet() else split(",").mapNotNull { ... }.toSet()`. */
  function DecodeDays(s: string): (r: DaySet)
    ensures IsBlank(s) ==> r == []
    ensures !IsBlank(s) ==>
      forall x :: x in r <==> exists t :: t in Split(s, ',') && ParseInt(Trim(t)) == Some(x)
  {
    if IsBlank(s) then [] else Distinct([], ParseTokens(Split(s, ',')))
  }

  /** `AlarmEntity.toDomain()`. */
  function ToDomain(e: AlarmEntity): (a: Alarm)
    ensures a.repeatDays == DecodeDays(e.repeatDays)
    ensures a.id == e.id && a.hour == e.hour && a.minute == e.minute
    ensures a.labelText == e.labelText && a.ttsMessage == e.ttsMessage
    ensures a.musicUri == e.musicUri && a.isEnabled == e.isEnabled
    ensures a.isPuzzleEnabled == e.isPuzzleEnabled
    ensures a.alarmIntervalMinutes == e.alarmIntervalMinutes && a.repeatCount == e.repeatCount
    ensures a.isVibrationEnabled == e.isVibrationEnabled && a.isTtsEnabled == e.isTtsEnabled
    ensures a.isMusicEnabled == e.isMusicEnabled
  {
    Alarm(e.id, e.hour, e.minute, e.labelText, e.ttsMessage, DecodeDays(e.repeatDays),
          e.musicUri, e.isEnabled, e.isPuzzleEnabled, e.alarmIntervalMinutes, e.repeatCount,
          e.isVibrationEnabled, e.isTtsEnabled, e.isMusicEnabled)
  }

  /** `Alarm.toEntity()`. */
  function ToEntity(a: Alarm): (e: AlarmEntity)
    ensures e.repeatDays == EncodeDays(a.repeatDays)
    ensures e.id == a.id && e.hour == a.hour && e.minute == a.minute
    ensures e.labelText == a.labelText && e.ttsMessage == a.ttsMessage
    ensures e.musicUri == a.musicUri && e.isEnabled == a.isEnabled
    ensures e.isPuzzleEnabled == a.isPuzzleEnabled
    ensures e.alarmIntervalMinutes == a.alarmIntervalMinutes && e.repeatCount == a.repeatCount
    ensures e.isVibrationEnabled == a.isVibrationEnabled && e.isTtsEnabled == a.isTtsEnabled
    ensures e.isMusicEnabled == a.isMusicEnabled
  {
    AlarmEntity(a.id, a.hour, a.minute, a.labelText, a.ttsMessage, EncodeDays(a.repeatDays),
                a.musicUri, a.isEnabled, a.isPuzzleEnabled, a.alarmIntervalMinutes, a.repeatCount,
                a.isVibrationEnabled, a.isTtsEnabled, a.isMusicEnabled)
  }

  /** The empty set is stored as the empty string. */
  lemma EncodeEmpty()
    ensures EncodeDays([]) == ""
  {
  }

  lemma ParseTokensCons(tokens: seq<string>, x: Int32)
    requires tokens != [] && ParseInt(Trim(tokens[0])) == Some(x)
    ensures ParseTokens(tokens) == [x] + ParseTokens(tokens[1..])
  {
  }

  /** Every rendered element parses back, so no token is dropped. */
  lemma {:induction false} ParseRendered(days: seq<Int32>)
    ensures ParseTokens(RenderDays(days)) == days
    decreases |days|
  {
    if days != [] {
      var tokens := RenderDays(days);
      var t := IntToString(days[0]);
      assert tokens[0] == t;
      TrimNoop(t);
      ParseIntOfIntToString(days[0]);
      ParseTokensCons(tokens, days[0]);
      assert tokens[1..] == RenderDays(days[1..]);
      ParseRendered(days[1..]);
      assert [days[0]] + days[1..] == days;
    }
  }

  lemma {:induction false} DistinctKeepsDistinct(seen: DaySet, s: seq<Int32>)
    requires NoDuplicates(s)
    requires forall x :: x in s ==> x !in seen
    ensures Distinct(seen, s) == seen + s
    decreases |s|
  {
    if s != [] {
      assert s[0] in s;
      var next := seen + [s[0]];
      assert NoDuplicates(next);
      forall x | x in s[1..] ensures x !in next {
        assert x in s;
        var k :| 1 <= k < |s| && s[k] == x;
        assert s[0] != s[k];
      }
      DistinctKeepsDistinct(next, s[1..]);
      assert next + s[1..] == seen + s;
    }
  }

  /** Decoding reads back exactly the set that was encoded, in the same order. */
  lemma DecodeEncode(days: DaySet)
    ensures DecodeDays(EncodeDays(days)) == days
  {
    if days != [] {
      var parts := RenderDays(days);
      EncodeNotBlank(days);
      forall i | 0 <= i < |parts| ensures ',' !in parts[i] {
        NoCommaInNumber(days[i]);
      }
      SplitJoin(parts, ',');
      assert Split(EncodeDays(days), ',') == parts;
      ParseRendered(days);
      DistinctKeepsDistinct([], days);
    }
  }

  lemma NoCommaInNumber(n: int)
    ensures ',' !in IntToString(n)
  {
    var s := IntToString(n);
    forall i | 0 <= i < |s| ensures s[i] != ',' {
      if i > 0 { assert IsDigit(s[i]); }
    }
  }

  lemma EncodeNotBlank(days: seq<Int32>)
    requires days != []
    ensures !IsBlank(EncodeDays(days))
  {
    var parts := RenderDays(days);
    var first := parts[0];
    assert first == IntToString(days[0]) && !IsWhitespace(first[0]);
    if |parts| == 1 {
      assert EncodeDays(days) == first;
    } else {
      assert EncodeDays(days) == first + "," + Join(parts[1..], ",");
    }
    assert EncodeDays(days)[0] == first[0];
  }

  /** Storing an alarm and reading it back yields the same alarm. */
  lemma RoundTrip(a: Alarm)
    ensures ToDomain(ToEntity(a)) == a
  {
    DecodeEncode(a.repeatDays);
  }

  /** Reading a row normalises its day list once and for all: writing the result
      back and reading it again changes nothing. */
  lemma NormaliseStable(e: AlarmEntity)
    ensures ToDomain(ToEntity(ToDomain(e))) == ToDomain(e)
  {
    RoundTrip(ToDomain(e));
  }
}
