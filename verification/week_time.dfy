/** Time of the week, and the delay to an event in it. */
module WeekTime {
  const DAY_MINUTES: int := 1440
  const WEEK_MINUTES: int := 10080

  type Day = d: nat | d < 7

  datatype Time = Time(hour: nat, minute: nat) {
    predicate Valid() { hour < 24 && minute < 60 }

    function Minutes(): nat { hour * 60 + minute }
  }

  /** One reading of the clock. */
  datatype Clock = Clock(day: Day, time: Time, sec: nat) {
    predicate Valid() { time.Valid() && sec < 60 }
  }

  /** Whole minutes from the clock's minute to the event, going forward within a week. */
  function MinutesUntil(day: Day, t: Time, now: Clock): int {
    ((day - now.day) * DAY_MINUTES + t.Minutes() - now.time.Minutes()) % WEEK_MINUTES
  }

  function DelayMs(day: Day, t: Time, now: Clock): int {
    MinutesUntil(day, t, now) * 60000 - now.sec * 1000
  }

  lemma DayGap(from: Day, to: Day)
    ensures (to - from + 7) % 7 == if to < from then to - from + 7 else to - from
  {
  }

  /** Field-wise subtraction with borrows; the result is exact and fits a 32-bit integer. */
  method CalcDelay(eventDay: Day, event: Time, now: Clock) returns (ms: int)
    requires event.Valid() && now.Valid()
    ensures ms == DelayMs(eventDay, event, now)
    ensures -0x8000_0000 <= ms < 0x8000_0000
  {
    DayGap(now.day, eventDay);
    var days: int := (eventDay - now.day + 7) % 7;
    var hours: int := event.hour - now.time.hour;
    var mins: int := event.minute - now.time.minute;
    if mins < 0 {
      mins := mins + 60;
      hours := hours - 1;
    }
    if hours < 0 {
      hours := hours + 24;
      days := days - 1;
    }
    if days < 0 {
      days := days + 7;
    }
    ms := days * 24 * 60 * 60 * 1000 + hours * 60 * 60 * 1000 + mins * 60 * 1000 - now.sec * 1000;
    WeekRemainder((eventDay - now.day) * DAY_MINUTES + event.Minutes() - now.time.Minutes(),
                  days * DAY_MINUTES + hours * 60 + mins);
  }

  /** Milliseconds from the start of the week. */
  function WeekMs(now: Clock): int { (now.day * DAY_MINUTES + now.time.Minutes()) * 60000 + now.sec * 1000 }

  /** A timer set to the delay expires at the event: on its day, in its minute, at second zero. */
  lemma TimerLands(day: Day, t: Time, now: Clock)
    requires t.Valid() && now.Valid()
    ensures (WeekMs(now) + DelayMs(day, t, now)) % (WEEK_MINUTES * 60000) == (day * DAY_MINUTES + t.Minutes()) * 60000
    ensures DelayMs(day, t, now) % 1000 == 0
  {
    var start := now.day * DAY_MINUTES + now.time.Minutes();
    AheadLands(day * DAY_MINUTES + t.Minutes(), start, MinutesUntil(day, t, now));
    assert WeekMs(now) + DelayMs(day, t, now) == (start + MinutesUntil(day, t, now)) * 60000;
    assert DelayMs(day, t, now) == (MinutesUntil(day, t, now) * 60 - now.sec) * 1000;
  }

  lemma AheadLands(target: int, start: int, ahead: int)
    requires 0 <= target < WEEK_MINUTES && 0 <= start < WEEK_MINUTES && ahead == (target - start) % WEEK_MINUTES
    ensures (start + ahead) * 60000 % (WEEK_MINUTES * 60000) == target * 60000
  {
    assert start + ahead == target || start + ahead == target + WEEK_MINUTES;
  }

  lemma WeekRemainder(x: int, r: int)
    requires 0 <= r < WEEK_MINUTES
    requires x == r || x == r - WEEK_MINUTES || x == r + WEEK_MINUTES
    ensures x % WEEK_MINUTES == r
  {
  }

  /** The day `offset` days after the clock's. */
  function DayAfter(now: Clock, offset: nat): Day { (now.day + offset) % 7 }

  lemma DayAfterIs(now: Clock, offset: nat)
    requires offset < 7
    ensures DayAfter(now, offset) == if now.day + offset < 7 then now.day + offset else now.day + offset - 7
  {
  }

  /** Minutes to an event `offset` days ahead: only an event earlier today wraps round the week. */
  lemma MinutesAhead(t: Time, now: Clock, offset: nat)
    requires t.Valid() && now.Valid() && offset < 7
    ensures var diff := t.Minutes() - now.time.Minutes();
            MinutesUntil(DayAfter(now, offset), t, now) ==
            offset * DAY_MINUTES + diff + (if offset == 0 && diff < 0 then WEEK_MINUTES else 0)
  {
    hide DayAfter;
    var diff := t.Minutes() - now.time.Minutes();
    DayAfterIs(now, offset);
    WeekRemainder((DayAfter(now, offset) - now.day) * DAY_MINUTES + diff,
                  offset * DAY_MINUTES + diff + (if offset == 0 && diff < 0 then WEEK_MINUTES else 0));
  }

  /** The turn-off day stored with an on-event: the next day when the off hour is the smaller one. */
  function OffDay(day: Day, on: Time, off: Time): Day {
    if off.hour < on.hour then (day + 1) % 7 else day
  }

  /** Minutes from the on-time to the stored off-event. */
  lemma OffMinutes(day: Day, on: Time, off: Time, sec: nat)
    requires on.Valid() && off.Valid() && sec < 60
    ensures var diff := off.Minutes() - on.Minutes();
            MinutesUntil(OffDay(day, on, off), off, Clock(day, on, sec)) ==
            diff + (if off.hour < on.hour then DAY_MINUTES else if diff < 0 then WEEK_MINUTES else 0)
  {
    hide MinutesUntil;
    var now := Clock(day, on, sec);
    assert DayAfter(now, 1) == (day + 1) % 7 && DayAfter(now, 0) == day;
    MinutesAhead(off, now, if off.hour < on.hour then 1 else 0);
  }

  lemma DayRemainder(diff: int)
    requires -DAY_MINUTES < diff < DAY_MINUTES
    ensures diff % DAY_MINUTES == if diff < 0 then diff + DAY_MINUTES else diff
  {
  }

  /** In the minute the on-event fires, the off-delay is the running time of the schedule, exactly unless both
      times share an hour and the off minute is the smaller. */
  lemma OffDelayExact(day: Day, on: Time, off: Time, sec: nat)
    requires on.Valid() && off.Valid() && sec < 60
    ensures var now := Clock(day, on, sec);
            DelayMs(OffDay(day, on, off), off, now) == (off.Minutes() - on.Minutes()) % DAY_MINUTES * 60000 - sec * 1000
            <==> !(off.hour == on.hour && off.minute < on.minute)
  {
    hide MinutesUntil;
    OffMinutes(day, on, off, sec);
    DayRemainder(off.Minutes() - on.Minutes());
  }

  /** From 10:30 to 10:15 the schedule runs for a week less a quarter of an hour, instead of a day less that much. */
  lemma SameHourOverruns(day: Day)
    ensures DelayMs(OffDay(day, Time(10, 30), Time(10, 15)), Time(10, 15), Clock(day, Time(10, 30), 0)) ==
            (WEEK_MINUTES - 15) * 60000
  {
    OffMinutes(day, Time(10, 30), Time(10, 15), 0);
  }

  /** From 10:30 to 10:30 the off-delay is not even positive, in any second of the minute. */
  lemma EqualTimesElapsed(day: Day, sec: nat)
    requires sec < 60
    ensures DelayMs(OffDay(day, Time(10, 30), Time(10, 30)), Time(10, 30), Clock(day, Time(10, 30), sec)) == -1000 * sec
  {
    OffMinutes(day, Time(10, 30), Time(10, 30), sec);
  }
}
