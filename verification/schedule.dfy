/** The schedule table, and the search for the event that comes next. */
module Schedule {
  import opened WeekTime
  import opened Words

  /** One row of the table; bit `d` of `days` selects weekday `d`. */
  datatype Entry = Entry(on: Time, off: Time, days: nat, isOn: bool, isValid: bool)

  type Table = seq<Entry>

  function DayBit(d: Day): nat {
    match d
    case 0 => 1
    case 1 => 2
    case 2 => 4
    case 3 => 8
    case 4 => 16
    case 5 => 32
    case _ => 64
  }

  predicate DayOn(days: nat, d: Day) { days / DayBit(d) % 2 == 1 }

  /** Weekday `d` is selected by bit `d` of the mask. */
  lemma DayIsBit(days: nat, d: Day)
    ensures DayOn(days, d) <==> BitAt(days, d)
  {
    hide BitAt;
    if d > 0 {
      BitShifted(days, d);
    } else {
      BitShifted(days, 0);
    }
  }

  lemma BitShifted(x: nat, d: Day)
    ensures BitAt(x, d) <==> x / DayBit(d) % 2 == 1
  {
    hide BitAt;
    LowestBit(x);
    LowestBit(x / 2);
    if d > 0 {
      BitShifted(x / 2, d - 1);
      HalfOfDay(x, d);
      NextBit(x, d - 1);
    }
  }

  lemma LowestBit(x: nat)
    ensures BitAt(x, 0) <==> x % 2 == 1
  {
  }

  lemma NextBit(x: nat, k: nat)
    ensures BitAt(x, k + 1) <==> BitAt(x / 2, k)
  {
  }

  lemma HalfOfDay(x: nat, d: Day)
    requires d > 0
    ensures x / DayBit(d) == x / 2 / DayBit(d - 1)
  {
  }

  /** Hours and minutes in range: true of the empty table and of every entry a command can leave behind. */
  ghost predicate TimesValid(t: Table) {
    forall i :: 0 <= i < |t| ==> t[i].on.Valid() && t[i].off.Valid()
  }

  // ---- The nearest event

  /** Entry `i` turns the air conditioner on at some time of day `d`. */
  predicate Planned(t: Table, i: nat, d: Day) {
    i < |t| && t[i].isValid && DayOn(t[i].days, d)
  }

  function StartDelay(t: Table, i: nat, d: Day, now: Clock): int
    requires i < |t|
  {
    DelayMs(d, t[i].on, now)
  }

  /** No planned event comes before this one, and none of a lower index comes with it. */
  ghost predicate Nearest(t: Table, now: Clock, i: nat, d: Day) {
    Planned(t, i, d) && forall j: nat, e: Day :: Planned(t, j, e) ==>
      StartDelay(t, i, d, now) <= StartDelay(t, j, e, now)
      && (j < i ==> StartDelay(t, i, d, now) < StartDelay(t, j, e, now))
  }

  lemma DaysApart(t: Time, now: Clock, d: Day, e: Day)
    requires t.Valid() && now.Valid() && DelayMs(d, t, now) == DelayMs(e, t, now)
    ensures d == e
  {
    TimerLands(d, t, now);
    TimerLands(e, t, now);
  }

  /** There is at most one such event: the search result is fully determined by the table and the clock. */
  lemma NearestUnique(t: Table, now: Clock, i: nat, d: Day, j: nat, e: Day)
    requires TimesValid(t) && now.Valid() && Nearest(t, now, i, d) && Nearest(t, now, j, e)
    ensures i == j && d == e
  {
    assert i == j;
    DaysApart(t[i].on, now, d, e);
  }

  /** What a search has found so far: nothing, or event (`i`, `d`) after `delay`. */
  datatype Best = Best(delay: int, i: int, d: int)

  const NONE := Best(0x7FFF_FFFF, -1, -1)

  ghost predicate Attained(t: Table, now: Clock, b: Best) {
    b == NONE || (0 <= b.i && 0 <= b.d < 7 && Planned(t, b.i, b.d) && b.delay == StartDelay(t, b.i, b.d, now))
  }

  function Offset(now: Clock, d: Day): nat { (d - now.day + 7) % 7 }

  lemma OffsetDay(now: Clock, d: Day)
    ensures Offset(now, d) < 7 && DayAfter(now, Offset(now, d)) == d
  {
  }

  /** Beyond the first selected day there is nothing nearer, unless today's time of the entry has already passed. */
  lemma LaterDaysLater(t: Time, now: Clock, k: nat, o: nat)
    requires t.Valid() && now.Valid() && k < o < 7
    requires k == 0 ==> DelayMs(DayAfter(now, 0), t, now) <= 24 * 60 * 60 * 1000
    ensures DelayMs(DayAfter(now, k), t, now) < DelayMs(DayAfter(now, o), t, now)
  {
    MinutesAhead(t, now, k);
    MinutesAhead(t, now, o);
  }

  lemma DayAfterNext(now: Clock, k: nat)
    ensures DayAfter(now, 0) == now.day && DayAfter(now, k + 1) == ((DayAfter(now, k) as int) + 1) % 7
  {
  }

  /** One entry of the search: its days from today on, leaving early. */
  method ScanDays(t: Table, now: Clock, i: nat, before: Best) returns (b: Best)
    requires i < |t| && t[i].isValid && t[i].on.Valid() && now.Valid() && Attained(t, now, before)
    ensures Attained(t, now, b) && b.delay <= before.delay
    ensures b != before ==> b.i == i && b.delay < before.delay
    ensures forall d :: Planned(t, i, d) ==> b.delay <= StartDelay(t, i, d, now)
  {
    b := before;
    hide DelayMs, DayOn, DayAfter, Offset;
    var wday: int := now.day;
    DayAfterNext(now, 0);
    var daysChecked := 0;
    while daysChecked < 7
      invariant 0 <= daysChecked <= 7 && 0 <= wday < 7 && wday == DayAfter(now, daysChecked)
      invariant Attained(t, now, b) && b.delay <= before.delay
      invariant b != before ==> b.i == i && b.delay < before.delay
      invariant forall o: nat :: o < daysChecked && Planned(t, i, DayAfter(now, o)) ==>
        b.delay <= StartDelay(t, i, DayAfter(now, o), now)
      decreases 7 - daysChecked
    {
      if DayOn(t[i].days, wday) {
        var delay := CalcDelay(wday, t[i].on, now);
        if b.delay > delay {
          b := Best(delay, i, wday);
        }
        if !(daysChecked == 0 && delay > 24 * 60 * 60 * 1000) {
          forall o: nat | daysChecked < o < 7
            ensures delay < StartDelay(t, i, DayAfter(now, o), now)
          {
            LaterDaysLater(t[i].on, now, daysChecked, o);
          }
          break;
        }
      }
      DayAfterNext(now, daysChecked);
      wday := (wday + 1) % 7;
      daysChecked := daysChecked + 1;
    }
    forall d | Planned(t, i, d)
      ensures b.delay <= StartDelay(t, i, d, now)
    {
      OffsetDay(now, d);
    }
  }

  /** `b` is the best event of the entries below `n`, the first of equals. */
  ghost predicate BestBelow(t: Table, now: Clock, b: Best, n: nat) {
    Attained(t, now, b) && b.i < n
    && forall j: nat, e: Day :: j < n && Planned(t, j, e) ==>
      b.delay <= StartDelay(t, j, e, now) && (j < b.i ==> b.delay < StartDelay(t, j, e, now))
  }

  lemma BestBelowNext(t: Table, now: Clock, before: Best, b: Best, i: nat)
    requires BestBelow(t, now, before, i) && Attained(t, now, b) && b.delay <= before.delay
    requires b != before ==> b.i == i && b.delay < before.delay
    requires forall d :: Planned(t, i, d) ==> b.delay <= StartDelay(t, i, d, now)
    ensures BestBelow(t, now, b, i + 1)
  {
    hide StartDelay, Planned;
  }

  lemma DelayInRange(d: Day, t: Time, now: Clock)
    requires t.Valid() && now.Valid()
    ensures DelayMs(d, t, now) < 0x7FFF_FFFF && DelayMs(d, t, now) != -1
  {
    TimerLands(d, t, now);
  }

  ghost predicate NothingPlanned(t: Table) { forall i: nat, d: Day :: !Planned(t, i, d) }

  /** Event `index` is the nearest, `delay` away, and its off-time falls on `offDay`. */
  ghost predicate Upcoming(t: Table, now: Clock, delay: int, index: int, offDay: Day) {
    exists d: Day :: 0 <= index && Nearest(t, now, index, d) && delay == StartDelay(t, index, d, now)
                     && offDay == OffDay(d, t[index].on, t[index].off)
  }

  lemma SearchEnds(t: Table, now: Clock, b: Best)
    requires TimesValid(t) && now.Valid() && BestBelow(t, now, b, |t|)
    ensures b == NONE ==> NothingPlanned(t)
    ensures b != NONE ==> 0 <= b.i < |t| && 0 <= b.d < 7 && b.delay != -1 && !NothingPlanned(t)
                          && Nearest(t, now, b.i, b.d) && b.delay == StartDelay(t, b.i, b.d, now)
  {
    hide DelayMs, DayOn, Planned;
    if b == NONE {
      forall i: nat, d: Day
        ensures !Planned(t, i, d)
      {
        if Planned(t, i, d) {
          PlannedInside(t, i, d);
          DelayInRange(d, t[i].on, now);
        }
      }
    } else {
      PlannedInside(t, b.i, b.d);
      DelayInRange(b.d, t[b.i].on, now);
      forall j: nat, e: Day | Planned(t, j, e)
        ensures j < |t|
      {
        PlannedInside(t, j, e);
      }
    }
  }

  lemma PlannedInside(t: Table, i: nat, d: Day)
    requires Planned(t, i, d)
    ensures i < |t|
  {
  }

  // ---- Events that are due, and entries that are switched off

  /** A delay is not positive exactly in the minute of its event. */
  lemma DueExactly(d: Day, t: Time, now: Clock)
    requires t.Valid() && now.Valid()
    ensures DelayMs(d, t, now) <= 0 <==> d == now.day && t == now.time
  {
    hide MinutesUntil;
    OffsetDay(now, d);
    MinutesAhead(t, now, Offset(now, d));
  }

  /** Some planned event falls in the clock's own day and minute. */
  ghost predicate DueNow(t: Table, now: Clock) {
    exists j :: 0 <= j < |t| && Planned(t, j, now.day) && t[j].on == now.time
  }

  /** Looking for the next event at 8:00:30, the scheduler finds the one of 8:00 due, and so wakes up for none. */
  lemma DueEntryMissed()
    ensures var t := [Entry(Time(8, 0), Time(9, 0), 127, true, true)];
            !NothingPlanned(t) && DueNow(t, Clock(1, Time(8, 0), 30))
  {
    var t := [Entry(Time(8, 0), Time(9, 0), 127, true, true)];
    assert Planned(t, 0, 1);
  }

  /** The nearest delay fails to be positive exactly if some planned event is due in this very minute. */
  lemma UpcomingSign(t: Table, now: Clock, delay: int, i: int, offDay: Day)
    requires TimesValid(t) && now.Valid() && Upcoming(t, now, delay, i, offDay)
    ensures delay <= 0 <==> DueNow(t, now)
  {
    hide DelayMs, DayOn;
    var d: Day :| Nearest(t, now, i, d) && delay == StartDelay(t, i, d, now);
    DueExactly(d, t[i].on, now);
    if DueNow(t, now) {
      var j :| 0 <= j < |t| && Planned(t, j, now.day) && t[j].on == now.time;
      DueExactly(now.day, t[j].on, now);
      assert StartDelay(t, j, now.day, now) <= 0;
    }
  }

  /** Two tables that differ in on-flags only. */
  predicate SameButOn(t: Table, u: Table) {
    |t| == |u| && forall k :: 0 <= k < |t| ==> u[k] == t[k].(isOn := u[k].isOn)
  }

  lemma SamePlan(t: Table, u: Table, k: nat, d: Day)
    requires SameButOn(t, u)
    ensures Planned(u, k, d) == Planned(t, k, d)
  {
  }

  lemma SameNearest(t: Table, u: Table, now: Clock, k: nat, d: Day)
    requires SameButOn(t, u)
    ensures Nearest(u, now, k, d) <==> Nearest(t, now, k, d)
  {
    hide DelayMs, DayOn;
    forall j: nat, e: Day
      ensures Planned(u, j, e) == Planned(t, j, e)
      ensures j < |t| ==> StartDelay(u, j, e, now) == StartDelay(t, j, e, now)
    {
      SamePlan(t, u, j, e);
    }
  }

  lemma SameUpcoming(t: Table, u: Table, now: Clock, delay: int, i: int, offDay: Day)
    requires SameButOn(t, u)
    ensures Upcoming(t, now, delay, i, offDay) ==> Upcoming(u, now, delay, i, offDay)
  {
    hide DelayMs, DayOn;
    if Upcoming(t, now, delay, i, offDay) {
      var d: Day :| 0 <= i && Nearest(t, now, i, d) && delay == StartDelay(t, i, d, now)
                    && offDay == OffDay(d, t[i].on, t[i].off);
      SameNearest(t, u, now, i, d);
    }
  }

  /** The search never looks at the on-flag: flipping one changes neither whether nor which event is found. */
  lemma IsOnIgnored(t: Table, j: nat, flag: bool, now: Clock, delay: int, i: int, offDay: Day)
    requires j < |t|
    ensures var u := t[j := t[j].(isOn := flag)];
            (NothingPlanned(u) <==> NothingPlanned(t))
            && (Upcoming(u, now, delay, i, offDay) <==> Upcoming(t, now, delay, i, offDay))
  {
    hide Upcoming, DayOn;
    var u := t[j := t[j].(isOn := flag)];
    forall k: nat, d: Day
      ensures Planned(u, k, d) == Planned(t, k, d)
    {
      SamePlan(t, u, k, d);
    }
    SameUpcoming(t, u, now, delay, i, offDay);
    SameUpcoming(u, t, now, delay, i, offDay);
  }

  /** The table as a user would read it: rows switched off plan nothing. */
  function Enabled(t: Table): (u: Table)
    ensures |u| == |t|
  {
    seq(|t|, i requires 0 <= i < |t| => t[i].(isValid := t[i].isValid && t[i].isOn))
  }

  lemma EnabledPlans(t: Table, now: Clock, j: nat, e: Day)
    ensures Planned(Enabled(t), j, e) <==> Planned(t, j, e) && t[j].isOn
    ensures j < |t| ==> StartDelay(Enabled(t), j, e, now) == StartDelay(t, j, e, now)
  {
  }

  /** The event found is the nearest of the enabled entries exactly if its own entry is switched on. */
  lemma HonoursIsOn(t: Table, now: Clock, i: nat, d: Day)
    requires Nearest(t, now, i, d)
    ensures Nearest(Enabled(t), now, i, d) <==> t[i].isOn
  {
    hide DelayMs, DayOn, Enabled;
    forall j: nat, e: Day
      ensures Planned(Enabled(t), j, e) <==> Planned(t, j, e) && t[j].isOn
      ensures j < |t| ==> StartDelay(Enabled(t), j, e, now) == StartDelay(t, j, e, now)
    {
      EnabledPlans(t, now, j, e);
    }
  }

  /** At this clock the search finds what it would find among the entries switched on. */
  ghost predicate SearchHonours(t: Table, now: Clock) {
    forall i: nat, d: Day :: Nearest(t, now, i, d) <==> Nearest(Enabled(t), now, i, d)
  }

  /** Row `i`, switched on, starts on day `e` at the same time as the later row `j`. */
  predicate Covers(t: Table, i: nat, j: nat, e: Day) {
    i < j < |t| && Planned(t, i, e) && t[i].isOn && t[i].on == t[j].on
  }

  /** Every start of a row switched off coincides with that of an earlier row switched on. */
  ghost predicate OffCovered(t: Table) {
    forall j: nat, e: Day :: Planned(t, j, e) && !t[j].isOn ==> exists i: nat :: Covers(t, i, j, e)
  }

  /** The lowest row that starts on day `e` at the same time as row `j`. */
  lemma {:induction false} LowestStart(t: Table, j: nat, e: Day) returns (i: nat)
    requires Planned(t, j, e)
    ensures i <= j && Planned(t, i, e) && t[i].on == t[j].on
    ensures forall k: nat :: k < i && Planned(t, k, e) ==> t[k].on != t[j].on
    decreases j
  {
    i := j;
    if k: nat :| k < j && Planned(t, k, e) && t[k].on == t[j].on {
      i := LowestStart(t, k, e);
    }
  }

  /** At the start of a row, on the second, the nearest event is that of the lowest row starting then. */
  lemma NearestAtStart(t: Table, i: nat, e: Day)
    requires TimesValid(t) && Planned(t, i, e)
    requires forall k: nat :: k < i && Planned(t, k, e) ==> t[k].on != t[i].on
    ensures Nearest(t, Clock(e, t[i].on, 0), i, e)
  {
    hide DelayMs, DayOn;
    var now := Clock(e, t[i].on, 0);
    forall k: nat, d: Day | Planned(t, k, d)
      ensures StartDelay(t, k, d, now) >= 0
      ensures StartDelay(t, k, d, now) == 0 <==> d == e && t[k].on == t[i].on
    {
      DueExactly(d, t[k].on, now);
      OnTheSecond(d, t[k].on, now);
    }
  }

  lemma OnTheSecond(d: Day, t: Time, now: Clock)
    requires now.sec == 0
    ensures DelayMs(d, t, now) >= 0
  {
  }

  lemma CoveredIfHonoured(t: Table, j: nat, e: Day)
    requires TimesValid(t) && Planned(t, j, e) && !t[j].isOn
    requires forall now: Clock :: now.Valid() ==> SearchHonours(t, now)
    ensures exists i: nat :: Covers(t, i, j, e)
  {
    hide Nearest, Enabled, DayOn;
    var i := LowestStart(t, j, e);
    var now := Clock(e, t[i].on, 0);
    assert now.Valid();
    NearestAtStart(t, i, e);
    assert SearchHonours(t, now);
    HonoursIsOn(t, now, i, e);
    assert Covers(t, i, j, e);
  }

  /** A covering row is found before the row it covers. */
  lemma CoverBeats(t: Table, now: Clock, k: nat, i: nat, d: Day)
    requires Covers(t, k, i, d)
    ensures !Nearest(t, now, i, d)
  {
    assert StartDelay(t, k, d, now) == StartDelay(t, i, d, now);
  }

  lemma OffIsBeaten(t: Table, now: Clock, i: nat, d: Day)
    requires OffCovered(t) && Planned(t, i, d) && !t[i].isOn
    ensures !Nearest(t, now, i, d)
  {
    var k: nat :| Covers(t, k, i, d);
    CoverBeats(t, now, k, i, d);
  }

  lemma EnabledNearest(t: Table, now: Clock, i: nat, d: Day)
    requires OffCovered(t) && Nearest(Enabled(t), now, i, d)
    ensures Nearest(t, now, i, d)
  {
    hide DelayMs, DayOn, Enabled;
    EnabledPlans(t, now, i, d);
    forall j: nat, e: Day | Planned(t, j, e)
      ensures StartDelay(t, i, d, now) <= StartDelay(t, j, e, now)
      ensures j < i ==> StartDelay(t, i, d, now) < StartDelay(t, j, e, now)
    {
      var k := j;
      if !t[j].isOn {
        k :| Covers(t, k, j, e);
      }
      EnabledPlans(t, now, k, e);
    }
  }

  lemma HonouredIfCovered(t: Table, now: Clock, i: nat, d: Day)
    requires OffCovered(t)
    ensures Nearest(t, now, i, d) <==> Nearest(Enabled(t), now, i, d)
  {
    hide Nearest, Enabled, Covers, DayOn;
    if Nearest(Enabled(t), now, i, d) {
      EnabledNearest(t, now, i, d);
    } else if Planned(t, i, d) && !t[i].isOn {
      OffIsBeaten(t, now, i, d);
    } else if Nearest(t, now, i, d) {
      NearestPlanned(t, now, i, d);
      HonoursIsOn(t, now, i, d);
    }
  }

  lemma NearestPlanned(t: Table, now: Clock, i: nat, d: Day)
    requires Nearest(t, now, i, d)
    ensures Planned(t, i, d)
  {
  }

  /** The search honours the on-flags at every clock if and only if every start of a row switched off coincides with
      that of an earlier row switched on. */
  lemma HonoursOnFlags(t: Table)
    requires TimesValid(t)
    ensures (forall now: Clock :: now.Valid() ==> SearchHonours(t, now)) <==> OffCovered(t)
  {
    hide Nearest, Covers;
    if forall now: Clock :: now.Valid() ==> SearchHonours(t, now) {
      forall j: nat, e: Day | Planned(t, j, e) && !t[j].isOn
        ensures exists i: nat :: Covers(t, i, j, e)
      {
        CoveredIfHonoured(t, j, e);
      }
    }
    if OffCovered(t) {
      forall now: Clock, i: nat, d: Day
        ensures Nearest(t, now, i, d) <==> Nearest(Enabled(t), now, i, d)
      {
        HonouredIfCovered(t, now, i, d);
      }
    }
  }

  /** A table whose only row is switched off still has an event. */
  lemma SwitchedOffStillPlanned()
    ensures var t := [Entry(Time(8, 0), Time(9, 0), 127, false, true)];
            !NothingPlanned(t) && NothingPlanned(Enabled(t))
  {
    var t := [Entry(Time(8, 0), Time(9, 0), 127, false, true)];
    assert Planned(t, 0, 0);
  }

  // ---- Running times

  function RunningMs(e: Entry): int { (e.off.Minutes() - e.on.Minutes()) % DAY_MINUTES * 60000 }

  /** Entries that end on the day they should: within one hour, the off minute is the later one. */
  predicate RunsToPlan(e: Entry) { e.off.hour == e.on.hour ==> e.on.minute < e.off.minute }

  /** In the minute an entry starts, its off-delay is positive and its running time exactly if it runs to plan; with
      equal times it is not positive at all. */
  lemma OffTimer(e: Entry, now: Clock)
    requires e.on.Valid() && e.off.Valid() && now.Valid() && now.time == e.on
    ensures var delay := DelayMs(OffDay(now.day, e.on, e.off), e.off, now);
            (delay > 0 && delay == RunningMs(e) - now.sec * 1000 <==> RunsToPlan(e))
            && (e.on == e.off <==> delay <= 0)
  {
    hide DelayMs, OffDay;
    OffDelayExact(now.day, e.on, e.off, now.sec);
    DueExactly(OffDay(now.day, e.on, e.off), e.off, now);
    SameTimeSameDay(now.day, e.on, e.off);
  }

  lemma SameTimeSameDay(day: Day, on: Time, off: Time)
    ensures on == off ==> OffDay(day, on, off) == day
  {
  }

  /** The table with the bookkeeping of the scheduler. */
  class ScheduleManager {
    const entries: array<Entry>
    var nextEventIndex: int
    var active: bool
    var turnOffDay: Day

    /** An active schedule is one of the table. */
    ghost predicate Valid()
      reads this, entries
    {
      TimesValid(entries[..]) && (active ==> 0 <= nextEventIndex < entries.Length)
    }

    constructor (n: nat)
      ensures Valid() && fresh(entries) && entries.Length == n && nextEventIndex == -1 && !active && turnOffDay == 0
      ensures forall i :: 0 <= i < n ==> !entries[i].isValid
    {
      entries := new Entry[n](_ => Entry(Time(0, 0), Time(0, 0), 0, false, false));
      nextEventIndex, active, turnOffDay := -1, false, 0;
    }

    /** The delay to the end of the running schedule or, when none runs, to the nearest start; -1 if there is none. */
    method DelayToNearest(now: Clock) returns (delay: int)
      requires Valid() && now.Valid()
      modifies this`nextEventIndex, this`turnOffDay
      ensures Valid()
      ensures active || delay == -1 ==> nextEventIndex == old(nextEventIndex) && turnOffDay == old(turnOffDay)
      ensures active ==> delay == DelayMs(turnOffDay, entries[nextEventIndex].off, now)
      ensures !active ==> (delay == -1 <==> NothingPlanned(entries[..]))
      ensures !active && delay != -1 ==> Upcoming(entries[..], now, delay, nextEventIndex, turnOffDay)
    {
      hide Attained, Nearest, Planned, DelayMs;
      if active {
        delay := CalcDelay(turnOffDay, entries[nextEventIndex].off, now);
        return;
      }
      var b := NONE;
      EmptySearch(entries[..], now);
      for i := 0 to entries.Length
        invariant BestBelow(entries[..], now, b, i)
        modifies {}
      {
        var before := b;
        if entries[i].isValid {
          b := ScanDays(entries[..], now, i, before);
        } else {
          SkipInvalid(entries[..], i);
        }
        BestBelowNext(entries[..], now, before, b, i);
      }
      SearchEnds(entries[..], now, b);
      if b.i != -1 {
        var day: Day := b.d;
        if entries[b.i].off.hour < entries[b.i].on.hour {
          day := (b.d + 1) % 7;
        }
        turnOffDay, nextEventIndex := day, b.i;
        delay := b.delay;
      } else {
        delay := -1;
      }
    }
  }

  lemma EmptySearch(t: Table, now: Clock)
    ensures BestBelow(t, now, NONE, 0)
  {
  }

  lemma SkipInvalid(t: Table, i: nat)
    requires i < |t| && !t[i].isValid
    ensures forall d :: !Planned(t, i, d)
  {
  }
}
