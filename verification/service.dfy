/** `AlarmService`: the foreground service that rings an alarm. It runs up to
    `maxRings` one-minute cycles of speech, tone and vibration, separated by the
    alarm's interval, until the dismiss screen stops it.

    The service's coroutine runs concurrently with `onDestroy`, which sets the
    dismissal flag. The loop is modelled sequentially: a dismissal oracle says at
    which read of the flag it is first seen set (the flag never clears again
    within one start). Reads are numbered: the loop test before cycle `i` is read
    `2 * i`, the test before the interval wait in cycle `i` is read `2 * i + 1`,
    and the test after the loop shares the number of the loop test that ended it. */
module RingService {
  import opened Alarms
  import opened Text
  import opened Scheduler
  import opened Repository

  /** `RING_DURATION_MS`: one ringing cycle. */
  const RING_DURATION_MS: int := 60_000

  /** The tone the player is given: the alarm's own URI when it is set and not
      blank, otherwise the system's default alarm ringtone. */
  datatype Tone = DefaultAlarmTone | MusicUri(uri: string)

  /** What one cycle plays. */
  datatype Channels = Channels(speech: Option<string>, tone: Option<Tone>, vibration: bool)

  datatype Event =
    | EnterForeground(requestCode: int)  // `startForeground` with the dismiss notification
    | DismissScreenLaunched(alarmId: int)
    | StartCycle(channels: Channels)     // channels started, then `delay(RING_DURATION_MS)`
    | StopAll                            // TTS stopped, player released, vibration cancelled
    | Wait(ms: int)                      // the interval between two cycles
    | StopSelf

  /** `if (repeatCount == -1) Int.MAX_VALUE else repeatCount`. */
  function MaxRings(a: Alarm): (n: Int32)
    ensures a.repeatCount == -1 ==> n == INT_MAX
    ensures a.repeatCount != -1 ==> n == a.repeatCount
  {
    if a.repeatCount == -1 then INT_MAX else a.repeatCount
  }

  /** The cycles that run when nothing dismisses the alarm: `maxRings`, or none
      when it is not positive. */
  function Cycles(a: Alarm): (n: nat)
    ensures n <= INT_MAX
  {
    if MaxRings(a) > 0 then MaxRings(a) else 0
  }

  /** `playAlarmSound(musicUri)`: `musicUri.isNullOrBlank()` selects the default tone. */
  function ToneOf(musicUri: Option<string>): (t: Tone)
    ensures t.MusicUri? <==> musicUri.Some? && !IsBlank(musicUri.value)
    ensures t.MusicUri? ==> t.uri == musicUri.value
  {
    match musicUri
    case Some(u) => if IsBlank(u) then DefaultAlarmTone else MusicUri(u)
    case None => DefaultAlarmTone
  }

  /** The channels each cycle starts: speech iff TTS is on and the message is not
      blank, a tone iff music is on, vibration iff vibration is on. */
  function ChannelsOf(a: Alarm): (c: Channels)
    ensures c.speech.Some? <==> a.isTtsEnabled && !IsBlank(a.ttsMessage)
    ensures c.speech.Some? ==> c.speech.value == a.ttsMessage
    ensures c.tone.Some? <==> a.isMusicEnabled
    ensures c.tone.Some? ==> c.tone.value == ToneOf(a.musicUri)
    ensures c.vibration <==> a.isVibrationEnabled
  {
    Channels(if a.isTtsEnabled && !IsBlank(a.ttsMessage) then Some(a.ttsMessage) else None,
             if a.isMusicEnabled then Some(ToneOf(a.musicUri)) else None,
             a.isVibrationEnabled)
  }

  /** The value read `check` sees in `isDismissed`. */
  predicate DismissedAt(dismissal: Option<nat>, check: int) {
    dismissal.Some? && dismissal.value <= check
  }

  /** The events of the ring loop from cycle `i` on, and what follows it. */
  function RingTrace(a: Alarm, dismissal: Option<nat>, i: nat): seq<Event>
    decreases Cycles(a) - i
  {
    if i >= Cycles(a) || DismissedAt(dismissal, 2 * i) then
      if DismissedAt(dismissal, 2 * i) then [] else [StopSelf]
    else
      Cycle(a, dismissal, i) + RingTrace(a, dismissal, i + 1)
  }

  /** Cycle `i`: the channels start and, a minute later, stop; then the pause. */
  function Cycle(a: Alarm, dismissal: Option<nat>, i: nat): seq<Event> {
    [StartCycle(ChannelsOf(a)), StopAll] + Pause(a, dismissal, i)
  }

  /** The events of the first `i` cycles. */
  function RingPrefix(a: Alarm, dismissal: Option<nat>, i: nat): seq<Event> {
    if i == 0 then [] else RingPrefix(a, dismissal, i - 1) + Cycle(a, dismissal, i - 1)
  }

  /** Once cycles `0 .. i - 1` have run, their events followed by the rest of the
      loop are the whole loop. */
  lemma {:induction false} RingSplit(a: Alarm, dismissal: Option<nat>, i: nat)
    requires i <= Cycles(a)
    requires i > 0 ==> !DismissedAt(dismissal, 2 * (i - 1))
    ensures RingPrefix(a, dismissal, i) + RingTrace(a, dismissal, i) == RingTrace(a, dismissal, 0)
  {
    if i > 0 {
      RingSplit(a, dismissal, i - 1);
      var before := RingPrefix(a, dismissal, i - 1);
      var cycle := Cycle(a, dismissal, i - 1);
      var rest := RingTrace(a, dismissal, i);
      assert RingTrace(a, dismissal, i - 1) == cycle + rest;
      AppendAssociative(before, cycle, rest);
    }
  }

  lemma AppendAssociative(x: seq<Event>, y: seq<Event>, z: seq<Event>)
    ensures x + y + z == x + (y + z)
  {
  }

  /** `alarmIntervalMinutes * 60_000L`: the length of the wait between two cycles. */
  function IntervalMs(a: Alarm): int {
    a.alarmIntervalMinutes * MINUTE_MS
  }

  /** The interval wait after cycle `i`: only when the flag is not seen and another
      cycle may follow. */
  function Pause(a: Alarm, dismissal: Option<nat>, i: nat): (p: seq<Event>)
    ensures p == [] || (|p| == 1 && p[0].Wait?)
    ensures p != [] ==> p[0].ms == IntervalMs(a)
  {
    if !DismissedAt(dismissal, 2 * i + 1) && i < MaxRings(a) - 1
    then [Wait(IntervalMs(a))] else []
  }

  /** Everything one `onStartCommand` does, from the intent's alarm id on. */
  function StartTrace(alarms: map<int, Alarm>, alarmId: int, dismissal: Option<nat>): seq<Event> {
    if alarmId == NO_ALARM_ID then [StopSelf]
    else
      [EnterForeground(RequestCode(alarmId)), DismissScreenLaunched(alarmId)] +
      if alarmId !in alarms then [StopSelf] else RingTrace(alarms[alarmId], dismissal, 0)
  }

  function CountStarts(t: seq<Event>): nat {
    if t == [] then 0 else (if t[0].StartCycle? then 1 else 0) + CountStarts(t[1..])
  }

  function CountWaits(t: seq<Event>): nat {
    if t == [] then 0 else (if t[0].Wait? then 1 else 0) + CountWaits(t[1..])
  }

  lemma {:induction false} CountAppend(s: seq<Event>, t: seq<Event>)
    ensures CountStarts(s + t) == CountStarts(s) + CountStarts(t)
    ensures CountWaits(s + t) == CountWaits(s) + CountWaits(t)
    decreases |s|
  {
    if s == [] {
      assert s + t == t;
    } else {
      assert (s + t)[1..] == s[1..] + t;
      CountAppend(s[1..], t);
    }
  }

  function Min(x: int, y: int): int {
    if x <= y then x else y
  }

  /** The cycles that start: all of them, unless the flag is seen before one of
      the loop tests; read `c` stops every cycle from `(c + 1) / 2` on. */
  function StartedCycles(a: Alarm, dismissal: Option<nat>): nat {
    if dismissal.None? then Cycles(a) else Min(Cycles(a), (dismissal.value + 1) / 2)
  }

  /** The interval waits: one after every started cycle but the last possible one,
      unless the flag is seen first; read `c` stops every wait from `c / 2` on. */
  function WaitedIntervals(a: Alarm, dismissal: Option<nat>): nat {
    var between := if Cycles(a) > 0 then Cycles(a) - 1 else 0;
    if dismissal.None? then between else Min(between, dismissal.value / 2)
  }

  /** Counting from cycle `i`: the cycles still to start. */
  lemma {:induction false} RingTraceStarts(a: Alarm, dismissal: Option<nat>, i: nat)
    requires i <= StartedCycles(a, dismissal)
    ensures CountStarts(RingTrace(a, dismissal, i)) == StartedCycles(a, dismissal) - i
    decreases Cycles(a) - i
  {
    var t := RingTrace(a, dismissal, i);
    if i >= Cycles(a) || DismissedAt(dismissal, 2 * i) {
      EndCounts(t);
      if DismissedAt(dismissal, 2 * i) {
        assert (dismissal.value + 1) / 2 <= i;
      }
    } else {
      var head := Cycle(a, dismissal, i);
      var rest := RingTrace(a, dismissal, i + 1);
      assert t == head + rest;
      HeadCounts(ChannelsOf(a), Pause(a, dismissal, i));
      CountAppend(head, rest);
      if dismissal.Some? {
        assert i + 1 <= (dismissal.value + 1) / 2;
      }
      RingTraceStarts(a, dismissal, i + 1);
    }
  }

  /** Counting from cycle `i`: the interval waits still to come. */
  lemma {:induction false} RingTraceWaits(a: Alarm, dismissal: Option<nat>, i: nat)
    requires i <= StartedCycles(a, dismissal)
    ensures CountWaits(RingTrace(a, dismissal, i)) ==
      if WaitedIntervals(a, dismissal) > i then WaitedIntervals(a, dismissal) - i else 0
    decreases Cycles(a) - i
  {
    var t := RingTrace(a, dismissal, i);
    if i >= Cycles(a) || DismissedAt(dismissal, 2 * i) {
      EndCounts(t);
    } else {
      var pause := Pause(a, dismissal, i);
      var head := Cycle(a, dismissal, i);
      var rest := RingTrace(a, dismissal, i + 1);
      assert t == head + rest;
      HeadCounts(ChannelsOf(a), pause);
      CountAppend(head, rest);
      assert pause != [] <==> WaitedIntervals(a, dismissal) > i;
      if dismissal.Some? {
        assert i + 1 <= (dismissal.value + 1) / 2;
      }
      RingTraceWaits(a, dismissal, i + 1);
    }
  }

  /** From cycle `i` on, the service stops itself exactly when the flag is never
      seen at a loop test. */
  lemma {:induction false} RingTraceStops(a: Alarm, dismissal: Option<nat>, i: nat)
    requires i <= StartedCycles(a, dismissal)
    ensures StopSelf in RingTrace(a, dismissal, i) <==>
      dismissal.None? || dismissal.value > 2 * Cycles(a)
    decreases Cycles(a) - i
  {
    if !(i >= Cycles(a) || DismissedAt(dismissal, 2 * i)) {
      var head := Cycle(a, dismissal, i);
      var rest := RingTrace(a, dismissal, i + 1);
      assert RingTrace(a, dismissal, i) == head + rest;
      if dismissal.Some? {
        assert i + 1 <= (dismissal.value + 1) / 2;
      }
      RingTraceStops(a, dismissal, i + 1);
      assert StopSelf !in head;
    }
  }

  /** What follows the last cycle holds no start and no wait. */
  lemma EndCounts(t: seq<Event>)
    requires t == [] || t == [StopSelf]
    ensures CountStarts(t) == 0 && CountWaits(t) == 0
  {
    if t != [] {
      assert t[1..] == [];
    }
  }

  /** One cycle's events: a single start, and a wait only if the pause holds one. */
  lemma HeadCounts(c: Channels, pause: seq<Event>)
    requires pause == [] || (|pause| == 1 && pause[0].Wait?)
    ensures CountStarts([StartCycle(c), StopAll] + pause) == 1
    ensures CountWaits([StartCycle(c), StopAll] + pause) == |pause|
  {
    var h := [StartCycle(c), StopAll] + pause;
    assert h[0] == StartCycle(c) && h[1..][0] == StopAll && h[1..][1..] == pause;
    if pause != [] {
      assert pause[1..] == [];
      assert CountStarts(pause) == 0 && CountWaits(pause) == 1;
    }
    assert CountStarts(h[1..]) == CountStarts(pause);
    assert CountWaits(h[1..]) == CountWaits(pause);
  }

  /** Without dismissal the loop runs every cycle, waits only between two cycles
      and then stops the service itself. */
  lemma UndismissedRun(a: Alarm)
    ensures CountStarts(RingTrace(a, None, 0)) == Cycles(a)
    ensures CountWaits(RingTrace(a, None, 0)) == if Cycles(a) > 0 then Cycles(a) - 1 else 0
    ensures StopSelf in RingTrace(a, None, 0)
  {
    RingTraceStarts(a, None, 0);
    RingTraceWaits(a, None, 0);
    RingTraceStops(a, None, 0);
  }

  /** With the flag first seen at read `c`: no cycle starts from cycle `(c + 1) / 2`
      on, no wait happens from cycle `c / 2` on, and the service does not stop
      itself (the dismiss screen does) unless every cycle had run before `c`. */
  lemma DismissedRun(a: Alarm, c: nat)
    ensures CountStarts(RingTrace(a, Some(c), 0)) == Min(Cycles(a), (c + 1) / 2)
    ensures CountWaits(RingTrace(a, Some(c), 0)) ==
      Min(if Cycles(a) > 0 then Cycles(a) - 1 else 0, c / 2)
    ensures StopSelf in RingTrace(a, Some(c), 0) <==> c > 2 * Cycles(a)
  {
    RingTraceStarts(a, Some(c), 0);
    RingTraceWaits(a, Some(c), 0);
    RingTraceStops(a, Some(c), 0);
  }

  /** A fresh alarm rings one cycle and never waits. */
  lemma DefaultAlarmRingsOnce(h: Int32, m: Int32)
    ensures RingTrace(NewAlarm(h, m), None, 0) ==
      [StartCycle(Channels(None, None, false)), StopAll, StopSelf]
  {
    var a := NewAlarm(h, m);
    assert Cycles(a) == 1;
    assert RingTrace(a, None, 1) == [StopSelf];
  }

  /** `repeatCount = -1` rings `Int.MAX_VALUE` cycles: many, but finitely many. */
  lemma RepeatForeverIsBounded(a: Alarm)
    requires a.repeatCount == -1
    ensures CountStarts(RingTrace(a, None, 0)) == INT_MAX
  {
    UndismissedRun(a);
  }

  /** The order and content every ring trace keeps at position `k`: a cycle
      starts the alarm's channels and stops them right after, before any wait or
      further cycle; a wait lasts the alarm's interval; `stopSelf` comes last. */
  predicate ShapedAt(a: Alarm, t: seq<Event>, k: int)
    requires 0 <= k < |t|
  {
    (t[k].StartCycle? ==> t[k].channels == ChannelsOf(a) && k + 1 < |t| && t[k + 1] == StopAll) &&
    (t[k].Wait? ==> t[k].ms == IntervalMs(a)) &&
    (t[k] == StopSelf ==> k == |t| - 1)
  }

  predicate RingShaped(a: Alarm, t: seq<Event>) {
    forall k :: 0 <= k < |t| ==> ShapedAt(a, t, k)
  }

  /** A cycle put in front of a well-shaped rest keeps the shape. */
  lemma CycleShaped(a: Alarm, dismissal: Option<nat>, i: nat, rest: seq<Event>)
    requires RingShaped(a, rest)
    ensures RingShaped(a, Cycle(a, dismissal, i) + rest)
  {
    var c := Cycle(a, dismissal, i);
    var t := c + rest;
    var pause := Pause(a, dismissal, i);
    assert c == [StartCycle(ChannelsOf(a)), StopAll] + pause;
    forall k | 0 <= k < |t|
      ensures ShapedAt(a, t, k)
    {
      if k < |c| {
        assert t[k] == c[k];
        if k == 0 {
          assert t[1] == StopAll;
        }
      } else {
        var j := k - |c|;
        assert t[k] == rest[j];
        assert ShapedAt(a, rest, j);
        if j + 1 < |rest| {
          assert t[k + 1] == rest[j + 1];
        }
      }
    }
  }

  /** Every run of the ring loop has the shape `RingShaped` describes. */
  lemma {:induction false} RingTraceShape(a: Alarm, dismissal: Option<nat>, i: nat)
    ensures RingShaped(a, RingTrace(a, dismissal, i))
    decreases Cycles(a) - i
  {
    if !(i >= Cycles(a) || DismissedAt(dismissal, 2 * i)) {
      RingTraceShape(a, dismissal, i + 1);
      CycleShaped(a, dismissal, i, RingTrace(a, dismissal, i + 1));
    }
  }

  class AlarmService {
    /** `isDismissed`. */
    var isDismissed: bool
    /** The tone the `player` is playing, if any. */
    var player: Option<Tone>
    /** Whether the `vibrator` is running. */
    var vibrating: bool
    /** The message the TTS player is speaking, if any. */
    var speaking: Option<string>

    constructor ()
      ensures !isDismissed && player.None? && !vibrating && speaking.None?
    {
      isDismissed := false;
      player := None;
      vibrating := false;
      speaking := None;
    }

    /** `onStartCommand` with the coroutine it launches run to completion. */
    method OnStartCommand(alarmId: int, repository: AlarmRepository, dismissal: Option<nat>)
      returns (events: seq<Event>)
      modifies this
      ensures events == StartTrace(repository.alarms, alarmId, dismissal)
      ensures alarmId != NO_ALARM_ID && alarmId in repository.alarms &&
              Cycles(repository.alarms[alarmId]) > 0 && !DismissedAt(dismissal, 0) ==>
        player.None? && !vibrating && speaking.None?
      ensures !(alarmId != NO_ALARM_ID && alarmId in repository.alarms &&
                Cycles(repository.alarms[alarmId]) > 0 && !DismissedAt(dismissal, 0)) ==>
        player == old(player) && vibrating == old(vibrating) && speaking == old(speaking)
      ensures alarmId == NO_ALARM_ID ==> isDismissed == old(isDismissed)
    {
      if alarmId == NO_ALARM_ID {
        return [StopSelf];
      }
      isDismissed := false;
      events := [EnterForeground(RequestCode(alarmId)), DismissScreenLaunched(alarmId)];
      var found := repository.GetAlarmById(alarmId);
      if found.None? {
        events := events + [StopSelf];
        return;
      }
      var ring := RingLoop(found.value, dismissal);
      events := events + ring;
    }

    /** The coroutine `onStartCommand` launches once the alarm is found: the ring
        loop, then `stopSelf()` unless the flag is set. */
    method RingLoop(alarm: Alarm, dismissal: Option<nat>) returns (events: seq<Event>)
      modifies this
      ensures events == RingTrace(alarm, dismissal, 0)
      ensures RingShaped(alarm, events)
      ensures Cycles(alarm) > 0 && !DismissedAt(dismissal, 0) ==>
        player.None? && !vibrating && speaking.None?
      ensures !(Cycles(alarm) > 0 && !DismissedAt(dismissal, 0)) ==>
        player == old(player) && vibrating == old(vibrating) && speaking == old(speaking)
    {
      var maxRings := MaxRings(alarm);
      events := [];
      var ringIndex := 0;
      isDismissed := DismissedAt(dismissal, 0);
      while ringIndex < maxRings && !isDismissed
        invariant 0 <= ringIndex <= Cycles(alarm)
        invariant isDismissed == DismissedAt(dismissal, 2 * ringIndex)
        invariant ringIndex > 0 ==> !DismissedAt(dismissal, 2 * (ringIndex - 1))
        invariant events == RingPrefix(alarm, dismissal, ringIndex)
        invariant ringIndex > 0 ==> player.None? && !vibrating && speaking.None?
        invariant ringIndex == 0 ==>
          player == old(player) && vibrating == old(vibrating) && speaking == old(speaking)
        decreases maxRings - ringIndex
      {
        var started := StartChannels(alarm);
        StopAllChannels();
        isDismissed := DismissedAt(dismissal, 2 * ringIndex + 1);
        var pause := [];
        if !isDismissed && ringIndex < maxRings - 1 {
          pause := [Wait(IntervalMs(alarm))];
        }
        assert pause == Pause(alarm, dismissal, ringIndex);
        var cycle := [StartCycle(started), StopAll] + pause;
        events := events + cycle;
        ringIndex := ringIndex + 1;
        isDismissed := DismissedAt(dismissal, 2 * ringIndex);
      }
      RingSplit(alarm, dismissal, ringIndex);
      RingTraceShape(alarm, dismissal, 0);
      if !isDismissed {
        events := events + [StopSelf];
      }
    }

    /** The head of a cycle: speech, tone and vibration are started as the alarm
        enables them; what was started is returned. */
    method StartChannels(alarm: Alarm) returns (started: Channels)
      modifies this
      ensures started == ChannelsOf(alarm)
      ensures isDismissed == old(isDismissed)
    {
      var speech: Option<string> := None;
      var tone: Option<Tone> := None;
      if alarm.isTtsEnabled && !IsBlank(alarm.ttsMessage) {
        speaking := Some(alarm.ttsMessage);
        speech := speaking;
      }
      if alarm.isMusicEnabled {
        PlayAlarmSound(alarm.musicUri);
        tone := player;
      }
      if alarm.isVibrationEnabled {
        StartVibration();
      }
      started := Channels(speech, tone, alarm.isVibrationEnabled);
    }

    /** `playAlarmSound(musicUri)`: any previous player is released and a new one
        plays the alarm's tone. */
    method PlayAlarmSound(musicUri: Option<string>)
      modifies this
      ensures player == Some(ToneOf(musicUri))
      ensures isDismissed == old(isDismissed) && vibrating == old(vibrating) && speaking == old(speaking)
    {
      player := None;
      player := Some(ToneOf(musicUri));
    }

    /** `startVibration`: the repeating waveform starts. */
    method StartVibration()
      modifies this
      ensures vibrating
      ensures isDismissed == old(isDismissed) && player == old(player) && speaking == old(speaking)
    {
      vibrating := true;
    }

    /** `stopSoundAndVibration` together with `ttsPlayer.stop()`. */
    method StopAllChannels()
      modifies this
      ensures player.None? && !vibrating && speaking.None?
      ensures isDismissed == old(isDismissed)
    {
      speaking := None;
      player := None;
      vibrating := false;
    }

    /** `onDestroy`: the flag is set, so the loop starts no further cycle or wait,
        and every channel is released. */
    method OnDestroy()
      modifies this
      ensures isDismissed && player.None? && !vibrating && speaking.None?
    {
      isDismissed := true;
      StopAllChannels();
    }
  }
}
