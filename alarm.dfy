/** The alarm effect: whenever the clock or the alarm changes, the current
    time's "HH:MM" is compared with the alarm; on a match the alarm rings once
    and is cleared. */
module Alarm {
  import opened Options

  /** Seconds since local midnight, the part of the clock's Date that matters. */
  type Second = s: nat | s < 86400

  /** Minutes since local midnight: what an "HH:MM" text stands for. */
  type Minute = m: nat | m < 1440

  /** The current time truncated to the minute; seconds are not compared. */
  function MinuteOf(now: Second): Minute {
    now / 60
  }

  function Digit(d: nat): char
    requires d < 10
  {
    ('0' as int + d) as char
  }

  /** The value a digit character reads back as. */
  function DigitValue(c: char): int {
    c as int - '0' as int
  }

  /** The "HH:MM" text of a minute: what toTimeString().slice(0, 5) gives and
      what the time input holds. */
  function TimeText(m: Minute): (s: string)
    ensures |s| == 5 && s[2] == ':'
    ensures forall i :: 0 <= i < 5 && i != 2 ==> '0' <= s[i] <= '9'
    ensures DigitValue(s[0]) * 10 + DigitValue(s[1]) == m / 60
    ensures DigitValue(s[3]) * 10 + DigitValue(s[4]) == m % 60
  {
    var h, mm := m / 60, m % 60;
    [Digit(h / 10), Digit(h % 10), ':', Digit(mm / 10), Digit(mm % 10)]
  }

  /** Two minutes with the same text are the same minute, so comparing the
      texts compares the minutes. */
  lemma TimeTextInjective(a: Minute, b: Minute)
    requires TimeText(a) == TimeText(b)
    ensures a == b
  {
    assert a / 60 == b / 60 && a % 60 == b % 60;
  }

  /** One run of the effect: whether it rang, and the alarm afterwards. */
  datatype Check = Check(rang: bool, alarm: Option<Minute>)

  /** The effect's test `alarmTime && now.slice(0, 5) === alarmTime`, then the
      reset of the alarm to ''. */
  function CheckAlarm(alarm: Option<Minute>, now: Second): (c: Check)
    ensures c.rang <==> alarm == Some(MinuteOf(now))
    ensures c.alarm == if c.rang then None else alarm
  {
    if alarm.Some? && TimeText(MinuteOf(now)) == TimeText(alarm.value) then
      TimeTextInjective(MinuteOf(now), alarm.value);
      Check(true, None)
    else
      Check(false, alarm)
  }

  /** The outcome of a sequence of clock ticks: how often the alarm rang and
      what it is at the end. */
  datatype Run = Run(rings: nat, alarm: Option<Minute>)

  /** The effect run once per tick, each tick seeing the alarm the previous
      one left. */
  function Replay(alarm: Option<Minute>, ticks: seq<Second>): (r: Run)
    ensures r.rings <= 1
    ensures r.rings == 1 <==>
              alarm.Some? && exists i :: 0 <= i < |ticks| && MinuteOf(ticks[i]) == alarm.value
    ensures r.alarm == if r.rings == 1 then None else alarm
    decreases |ticks|
  {
    if ticks == [] then Run(0, alarm)
    else
      var c := CheckAlarm(alarm, ticks[0]);
      var rest := Replay(c.alarm, ticks[1..]);
      assert forall i :: 0 <= i < |ticks[1..]| ==> ticks[1..][i] == ticks[i + 1];
      assert !c.rang && alarm.Some? ==>
        forall i :: 0 < i < |ticks| ==> ticks[i] == ticks[1..][i - 1];
      Run((if c.rang then 1 else 0) + rest.rings, rest.alarm)
  }

  /** With no alarm set the effect never rings. */
  lemma SilentWhenUnset(ticks: seq<Second>)
    ensures Replay(None, ticks) == Run(0, None)
  {
  }

  /** Armed for 08:00, with the clock passing 07:59, 08:00, 08:01 and 09:00:
      one ring, at 08:00, and the alarm is cleared. */
  lemma RingsOnceAtEight()
    ensures Replay(Some(480), [479 * 60, 480 * 60, 480 * 60 + 30, 481 * 60, 540 * 60])
            == Run(1, None)
  {
    var ticks: seq<Second> := [479 * 60, 480 * 60, 480 * 60 + 30, 481 * 60, 540 * 60];
    assert MinuteOf(ticks[1]) == 480;
  }
}
