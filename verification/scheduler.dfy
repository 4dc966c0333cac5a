/** The scheduler: one wake-up at a time, switching the appliance and rearming its timer. */
module Scheduler {
  import opened Text
  import opened WeekTime
  import opened Schedule
  import opened Compaction
  import opened Commands
  import opened Remote

  datatype State = Nop | AcOff | AcOn | EventUpdate | EventToggle | EventDelete

  /** What wakes the scheduler; the last three come from the request handlers. */
  datatype Wake = TimerFired | UpdateRequest | ToggleRequest | DeleteRequest

  datatype Reply = Done | WrongFormat | InvalidEntry | TableFull

  const BUFFER_LEN := 24

  /** The command buffer: the latest request, then whatever earlier ones left behind it. */
  type Data = d: string | |d| == BUFFER_LEN witness seq(BUFFER_LEN, i => '\0')

  // ---- What a request does to the table

  function FirstFree(t: Table, from: nat): (i: nat)
    requires from <= |t|
    ensures from <= i <= |t| && (i < |t| ==> !t[i].isValid)
    ensures forall j :: from <= j < i ==> t[j].isValid
    decreases |t| - from
  {
    if from == |t| || !t[from].isValid then from else FirstFree(t, from + 1)
  }

  /** The row a request writes, and the text it is written from; a row past the table is ignored. */
  function Target(t: Table, data: Data): (target: (nat, string))
    ensures |target.1| >= 19
  {
    match IndexOf(data)
    case New => (FirstFree(t, 0), data[2..])
    case Index(len, row) => (if len == 0 then |t| else row, data[len + 1..])
  }

  function UpdateTable(t: Table, data: Data): Table {
    var (row, text) := Target(t, data);
    if row < |t| then t[row := Transferred(t[row], text)] else t
  }

  function UpdateReply(t: Table, data: Data): Reply {
    var (row, text) := Target(t, data);
    if IndexOf(data) == Index(0, 0) then WrongFormat
    else if row < |t| then if WellFormed(text) then Done else WrongFormat
    else if IndexOf(data) == New then TableFull
    else Done
  }

  /** The request names a row of the table or is malformed; toggle and delete do not check the bound themselves. */
  predicate NamesRow(n: nat, data: Data) {
    match IndexOf(data)
    case New => true
    case Index(len, row) => len > 0 ==> row < n
  }

  predicate HasRow(data: Data) { IndexOf(data).Index? && IndexOf(data).length > 0 }

  function ToggleTable(t: Table, data: Data): Table
    requires NamesRow(|t|, data)
  {
    if HasRow(data) && t[IndexOf(data).value].isValid then
      t[IndexOf(data).value := t[IndexOf(data).value].(isOn := !t[IndexOf(data).value].isOn)]
    else t
  }

  function ToggleReply(t: Table, data: Data): Reply
    requires NamesRow(|t|, data)
  {
    if !HasRow(data) then WrongFormat else if t[IndexOf(data).value].isValid then Done else InvalidEntry
  }

  function DeleteTable(t: Table, data: Data): Table
    requires NamesRow(|t|, data)
  {
    if HasRow(data) then Deleted(t, IndexOf(data).value) else t
  }

  /** A row saved in the app replaces exactly that row of the server's table, with the weekdays of the dialog. */
  lemma SaveStores(t: Table, index: nat, on: Time, off: Time, sel: seq<bool>, data: Data)
    requires index < 100 && on.Valid() && off.Valid() && |sel| == 7
    requires Command(index, on, off, FoldDays(sel)) <= data
    ensures var mask := DayMask(DayText(sel), 7);
            UpdateTable(t, data) == (if index < |t| then t[index := Entry(on, off, mask, true, true)] else t)
            && UpdateReply(t, data) == Done && forall d: Day :: DayOn(mask, d) <==> sel[d]
  {
    hide Command, Transferred, WellFormed, IndexOf, DayOn, DayMask, FoldDays;
    var text := Command(index, on, off, FoldDays(sel));
    assert data == text + data[|text|..];
    RoundTrip(index, on, off, sel, data[|text|..],
              if index < |t| then t[index] else Entry(on, off, 0, false, false));
  }

  /** A request that starts with "n " writes the lowest free row from the third character on, and is answered by whether
      all fields were in range; if no row is free, nothing changes. */
  lemma NewRowAnswered(t: Table, i: nat, data: Data)
    requires data[0] == 'n' && data[1] == ' '
    requires i <= |t| && (forall j :: 0 <= j < i ==> t[j].isValid) && (i < |t| ==> !t[i].isValid)
    ensures if i == |t| then UpdateTable(t, data) == t && UpdateReply(t, data) == TableFull
            else UpdateTable(t, data) == t[i := Transferred(t[i], data[2..])]
                 && UpdateReply(t, data) == if WellFormed(data[2..]) then Done else WrongFormat
  {
    hide Transferred, WellFormed;
    assert FirstFree(t, 0) == i;
  }

  /** A new row, "n " and the text of the row, goes to the lowest free row; if there is none, nothing changes and the
      answer says so. */
  lemma NewRowStores(t: Table, i: nat, on: Time, off: Time, sel: seq<bool>, data: Data)
    requires on.Valid() && off.Valid() && |sel| == 7 && "n " + Row(on, off, FoldDays(sel)) <= data
    requires i <= |t| && (forall j :: 0 <= j < i ==> t[j].isValid) && (i < |t| ==> !t[i].isValid)
    ensures var mask := DayMask(DayText(sel), 7);
            if i < |t| then
              UpdateTable(t, data) == t[i := Entry(on, off, mask, true, true)] && UpdateReply(t, data) == Done
            else UpdateTable(t, data) == t && UpdateReply(t, data) == TableFull
    ensures forall d: Day :: DayOn(DayMask(DayText(sel), 7), d) <==> sel[d]
  {
    hide Row, Transferred, WellFormed, DayOn, DayMask, FoldDays;
    var row := Row(on, off, FoldDays(sel));
    assert data[..2] == "n " && data[2..] == row + data[|row| + 2..] by { NewRowText(row, data); }
    assert data[0] == data[..2][0] && data[1] == data[..2][1];
    var blank := Entry(on, off, 0, false, false);
    RowReads(data[2..], on, off, sel, data[|row| + 2..], if i < |t| then t[i] else blank);
    NewRowAnswered(t, i, data);
    forall d: Day
      ensures DayOn(DayMask(DayText(sel), 7), d) <==> sel[d]
    {
      MaskSelects(DayText(sel), 7, d);
    }
  }

  lemma NewRowText(row: string, data: string)
    requires "n " + row <= data
    ensures data[..2] == "n " && data[2..] == row + data[|row| + 2..]
  {
    var text := "n " + row;
    assert data == text + data[|text|..];
  }

  /** A request that starts neither with a digit nor as a new row is refused and changes nothing. */
  lemma MalformedRefused(t: Table, data: Data)
    requires !IsDigit(data[0]) && !("n " <= data)
    ensures UpdateTable(t, data) == t && UpdateReply(t, data) == WrongFormat
    ensures NamesRow(|t|, data) && ToggleTable(t, data) == t && ToggleReply(t, data) == WrongFormat
    ensures DeleteTable(t, data) == t && !HasRow(data)
  {
    assert data[..2] == [data[0], data[1]] && data == data[..2] + data[2..];
  }

  /** A toggle flips the on-flag of the named row if that row is in use, and changes nothing else; doing it twice
      restores the table. The row number is the one or two digits at the start. */
  lemma ToggleFlips(t: Table, data: Data)
    requires NamesRow(|t|, data)
    ensures var u := ToggleTable(t, data);
            && |u| == |t|
            && (forall i :: 0 <= i < |t| ==>
                  u[i].isOn == (t[i].isOn != (HasRow(data) && i == IndexOf(data).value && t[i].isValid)))
            && (forall i :: 0 <= i < |t| ==> u[i] == t[i].(isOn := u[i].isOn))
            && ToggleTable(u, data) == t
    ensures ToggleReply(t, data) ==
            if !HasRow(data) then WrongFormat else if t[IndexOf(data).value].isValid then Done else InvalidEntry
  {
  }

  /** How an update to a named row is answered: a row past the table is accepted and ignored; otherwise the answer tells
      whether all fields were in range, and the row holds what was stored of them. */
  lemma UpdateAnswered(t: Table, data: Data)
    requires HasRow(data)
    ensures var row, text := IndexOf(data).value, data[IndexOf(data).length + 1..];
            if row >= |t| then UpdateTable(t, data) == t && UpdateReply(t, data) == Done
            else UpdateTable(t, data) == t[row := Transferred(t[row], text)]
                 && UpdateReply(t, data) == if WellFormed(text) then Done else WrongFormat
  {
    hide Transferred, WellFormed;
  }

  /** Row numbers as they are written: any number below 100; behind a single digit there must be something that is no
      digit, and what follows two digits does not matter. */
  lemma RowNamed(n: nat, data: Data)
    requires n < 100 && Numeral(n, 10) <= data && (n < 10 ==> !IsDigit(data[1]))
    ensures HasRow(data) && IndexOf(data).value == n && IndexOf(data).length == |Numeral(n, 10)|
  {
    if n >= 10 {
      assert Numeral(n / 10, 10) == [DigitChar(n / 10)];
      assert Numeral(n, 10) == [DigitChar(n / 10), DigitChar(n % 10)];
      assert data[0] == Numeral(n, 10)[0] && data[1] == Numeral(n, 10)[1];
    } else {
      assert data[0] == Numeral(n, 10)[0];
    }
  }

  lemma DeletedTimesValid(t: Table, k: nat)
    requires TimesValid(t) && k < |t|
    ensures TimesValid(Deleted(t, k))
  {
    CloseTimesValid(t[k := t[k].(isValid := false)], k);
  }

  lemma {:induction false} CloseTimesValid(t: Table, s: nat)
    requires TimesValid(t) && s < |t|
    ensures TimesValid(Close(t, s))
    decreases |t| - s
  {
    if s + 1 < |t| && t[s + 1].isValid {
      CloseTimesValid(MoveDown(t, s), s + 1);
    }
  }

  lemma UpdateTimesValid(t: Table, data: Data)
    requires TimesValid(t)
    ensures TimesValid(UpdateTable(t, data))
  {
    hide Transferred, IndexOf;
    var (row, text) := Target(t, data);
    if row < |t| {
      TimesStayValid(t, row, text);
    }
  }

  /** An update leaves the used rows a prefix exactly unless it names a row beyond the first free one. */
  lemma UpdatePacks(t: Table, data: Data, m: nat)
    requires Packed(t, m)
    ensures (exists n: nat :: Packed(UpdateTable(t, data), n)) <==>
            !(HasRow(data) && m < IndexOf(data).value < |t| && WellFormed(data[IndexOf(data).length + 1..]))
  {
    hide IndexOf, Accepted, Field, DayMask;
    var (row, text) := Target(t, data);
    var u := UpdateTable(t, data);
    if row < |t| {
      TransferValidity(t[row], text);
      assert forall i :: 0 <= i < |t| ==> (u[i].isValid <==> i < m || (i == row && WellFormed(text)));
      if row <= m || !WellFormed(text) {
        assert Packed(u, if WellFormed(text) && row == m then m + 1 else m);
      } else {
        assert !t[m].isValid && HasRow(data);
        forall n: nat
          ensures !Packed(u, n)
        {
          assert u[row].isValid && !u[m].isValid;
        }
      }
    } else {
      assert Packed(u, m);
    }
  }

  /** A table of two rows to which row 3 is saved: the gap at row 2 stays, and deleting row 0 afterwards triples the
      last row. */
  lemma GapReached(t: Table, on: Time, off: Time, sel: seq<bool>, data: Data)
    requires |t| == 4 && Packed(t, 2) && on.Valid() && off.Valid() && |sel| == 7
    requires Command(3, on, off, FoldDays(sel)) <= data
    ensures var u := UpdateTable(t, data);
            !(exists n: nat :: Packed(u, n)) && u[3].isValid && !u[2].isValid
            && Deleted(u, 0) == [u[1], u[3], u[3], u[3]]
  {
    hide Command, IndexOf, DayOn, DayMask, FoldDays, Deleted, UpdateReply;
    SaveStores(t, 3, on, off, sel, data);
    var u := UpdateTable(t, data);
    GappedTableDuplicates(u);
    forall n: nat
      ensures !Packed(u, n)
    {
      assert u[3].isValid && !u[2].isValid;
    }
  }

  lemma TransferValidity(e: Entry, text: string)
    requires |text| >= 19
    ensures Transferred(e, text).isValid <==> e.isValid || WellFormed(text)
  {
    FilledKeeps(e, text, Accepted(text, 0));
  }

  lemma {:induction false} FilledKeeps(e: Entry, text: string, n: nat)
    requires |text| >= 19 && n <= 4 && (forall j :: 0 <= j < n ==> Accepts(j, Field(text, j)))
    ensures Filled(e, text, n).isValid == e.isValid
  {
    hide Field;
    if n > 0 {
      FilledKeeps(e, text, n - 1);
      assert Accepts(n - 1, Field(text, n - 1));
    }
  }

  // ---- Requests while an entry is running

  function TableOf(t: Table, w: Wake, data: Data): Table
    requires w in {ToggleRequest, DeleteRequest} ==> NamesRow(|t|, data)
  {
    match w
    case TimerFired => t
    case UpdateRequest => UpdateTable(t, data)
    case ToggleRequest => ToggleTable(t, data)
    case DeleteRequest => DeleteTable(t, data)
  }

  /** The answer to a request. */
  function ReplyTo(t: Table, w: Wake, data: Data): Reply
    requires w in {ToggleRequest, DeleteRequest} ==> NamesRow(|t|, data)
  {
    match w
    case TimerFired => Done
    case UpdateRequest => UpdateReply(t, data)
    case ToggleRequest => ToggleReply(t, data)
    case DeleteRequest => if HasRow(data) then Done else WrongFormat
  }

  /** Deleting row `k` leaves row `i` with its off-time if it lies in front of `k`, or if no used row follows `k`;
      otherwise row `i` is another row's, and its off-time is the same only if that row happens to share it. */
  predicate DeleteKeepsOff(t: Table, k: nat, i: nat)
    requires k < |t| && i < |t|
  {
    k > i || k + 1 == |t| || !t[k + 1].isValid
    || t[Origin(|t|, k, Moves(t[k := t[k].(isValid := false)], k), i)].off == t[i].off
  }

  /** Whether a request leaves the off-time of row `i` as it is, told from the table and the request alone. */
  predicate KeepsOff(t: Table, w: Wake, data: Data, i: nat)
    requires i < |t| && (w in {ToggleRequest, DeleteRequest} ==> NamesRow(|t|, data))
  {
    match w
    case UpdateRequest => Target(t, data).0 != i || Transferred(t[i], Target(t, data).1).off == t[i].off
    case DeleteRequest => HasRow(data) ==> DeleteKeepsOff(t, IndexOf(data).value, i)
    case _ => true
  }

  /** A request that names row `n` of the table acts on row `n`. */
  lemma NamedRequests(t: Table, n: nat, data: Data)
    requires n < 100 && n < |t| && Numeral(n, 10) <= data && (n < 10 ==> !IsDigit(data[1]))
    ensures NamesRow(|t|, data)
    ensures TableOf(t, DeleteRequest, data) == Deleted(t, n) && ReplyTo(t, DeleteRequest, data) == Done
    ensures TableOf(t, ToggleRequest, data) == (if t[n].isValid then t[n := t[n].(isOn := !t[n].isOn)] else t)
    ensures ReplyTo(t, ToggleRequest, data) == if t[n].isValid then Done else InvalidEntry
  {
    hide Numeral, Deleted, IndexOf;
    RowNamed(n, data);
  }

  lemma MalformedAnswered(t: Table, w: Wake, data: Data)
    requires w != TimerFired && !IsDigit(data[0]) && !("n " <= data)
    ensures (w in {ToggleRequest, DeleteRequest} ==> NamesRow(|t|, data))
            && TableOf(t, w, data) == t && ReplyTo(t, w, data) == WrongFormat
  {
    MalformedRefused(t, data);
  }

  lemma DeletedOff(t: Table, k: nat, i: nat)
    requires k < |t| && i < |t|
    ensures Deleted(t, k)[i].off == t[i].off <==> DeleteKeepsOff(t, k, i)
    ensures i < k ==> Deleted(t, k)[i] == t[i]
  {
    hide Close, Moves;
    DeletedRow(t, k, i);
  }

  lemma OffKept(t: Table, w: Wake, data: Data, i: nat)
    requires i < |t| && (w in {ToggleRequest, DeleteRequest} ==> NamesRow(|t|, data))
    ensures |TableOf(t, w, data)| == |t|
    ensures TableOf(t, w, data)[i].off == t[i].off <==> KeepsOff(t, w, data, i)
  {
    hide Transferred, Deleted, DeleteKeepsOff, IndexOf;
    if w == DeleteRequest && HasRow(data) {
      DeletedOff(t, IndexOf(data).value, i);
    }
  }

  /** With row 1 of three running, deleting row 0 makes it end at the off-time of row 2. */
  lemma DeleteMovesEnd(t: Table)
    requires |t| == 4 && Packed(t, 3)
    ensures Deleted(t, 0)[1] == t[2]
    ensures t[2].off != t[1].off ==> !DeleteKeepsOff(t, 0, 1)
  {
    var u := t[0 := t[0].(isValid := false)];
    var v := MoveDown(u, 0);
    assert v == [t[1], t[2], t[3], t[3]];
    assert Deleted(t, 0) == Close(u, 0) == Close(v, 1) == v;
    DeletedOff(t, 0, 1);
  }

  // ---- From the timer to the clock

  /** The clock shows some second of the minute in which a timer of `delay` set at `armed` expires. */
  predicate InMinuteOf(armed: Clock, delay: int, woken: Clock) {
    WeekMs(woken) - woken.sec * 1000 == (WeekMs(armed) + delay) % (WEEK_MINUTES * 60000)
  }

  /** Timer and clock together: woken in the minute its timer was set for, the on-step sees the start of its entry, and
      its off-delay is positive and exactly the running time, if and only if the entry runs to plan. */
  lemma RunsAsLongAsPlanned(t: Table, armed: Clock, delay: int, i: nat, offDay: Day, woken: Clock)
    requires TimesValid(t) && armed.Valid() && woken.Valid() && i < |t| && Upcoming(t, armed, delay, i, offDay)
    requires InMinuteOf(armed, delay, woken)
    ensures woken.time == t[i].on && offDay == OffDay(woken.day, t[i].on, t[i].off)
    ensures var off := DelayMs(offDay, t[i].off, woken);
            (off > 0 && off == RunningMs(t[i]) - woken.sec * 1000 <==> RunsToPlan(t[i]))
            && (off <= 0 <==> t[i].on == t[i].off)
            && (off == RunningMs(t[i]) - woken.sec * 1000 <==>
                !(t[i].off.hour == t[i].on.hour && t[i].off.minute < t[i].on.minute))
  {
    hide DelayMs, Planned, RunsToPlan, WeekMs;
    var d: Day :| Nearest(t, armed, i, d) && delay == StartDelay(t, i, d, armed)
                  && offDay == OffDay(d, t[i].on, t[i].off);
    TimerLands(d, t[i].on, armed);
    SameMinute(d, t[i].on, woken);
    OffDelayExact(d, t[i].on, t[i].off, woken.sec);
    OffTimer(t[i], woken);
  }

  lemma SameMinute(d: Day, t: Time, woken: Clock)
    requires t.Valid() && woken.Valid()
    requires WeekMs(woken) - woken.sec * 1000 == (d * DAY_MINUTES + t.Minutes()) * 60000
    ensures woken == Clock(d, t, woken.sec)
  {
    assert woken.day * DAY_MINUTES + woken.time.Minutes() == d * DAY_MINUTES + t.Minutes();
  }

  /** Woken in the minute an event's timer was set for, the clock shows the event. */
  lemma WokenAtEvent(d: Day, t: Time, armed: Clock, woken: Clock)
    requires t.Valid() && armed.Valid() && woken.Valid() && InMinuteOf(armed, DelayMs(d, t, armed), woken)
    ensures woken == Clock(d, t, woken.sec)
  {
    hide DelayMs, WeekMs;
    TimerLands(d, t, armed);
    SameMinute(d, t, woken);
  }

  lemma UpcomingInside(t: Table, now: Clock, delay: int, i: int, offDay: Day)
    requires Upcoming(t, now, delay, i, offDay)
    ensures 0 <= i < |t|
  {
  }

  // ---- The scheduler loop

  class AcScheduler {
    const manager: ScheduleManager
    const remote: IrRemote
    var state: State
    var timer: int
    ghost var armedAt: Clock

    /** Whatever the scheduler is to wake up for is a row of the table, and the timer is set to its event. */
    ghost predicate Pending()
      reads this, manager, manager.entries
    {
      armedAt.Valid()
      && (state == AcOn ==> !manager.active
                            && Upcoming(Rows(), armedAt, timer, manager.nextEventIndex, manager.turnOffDay))
      && (state == AcOff ==> manager.active && 0 <= manager.nextEventIndex < |Rows()|
                             && timer == DelayMs(manager.turnOffDay, Rows()[manager.nextEventIndex].off, armedAt))
    }

    ghost predicate Valid()
      reads this, manager, manager.entries, remote
    {
      manager.Valid() && remote.Tracked() && Pending()
    }

    function Rows(): Table
      reads manager, manager.entries
    {
      manager.entries[..]
    }

    /** The clock shows the minute in which the timer expires. */
    ghost predicate OnTime(now: Clock)
      reads this
    {
      InMinuteOf(armedAt, timer, now)
    }

    constructor (n: nat, remote0: IrRemote)
      requires remote0.Tracked()
      ensures Valid() && fresh(manager) && fresh(manager.entries) && remote == remote0
      ensures state == Nop && Packed(Rows(), 0) && |Rows()| == n
    {
      manager := new ScheduleManager(n);
      remote, state, timer, armedAt := remote0, Nop, -1, Clock(0, Time(0, 0), 0);
    }

    /** The timer and the state to wake up in, as set at time `now` for a next event `delay` ahead. */
    ghost predicate Armed(now: Clock, timer0: int, delay: int)
      reads this, manager, manager.entries
    {
      && timer == (if delay > 0 then delay else timer0)
      && state == (if delay <= 0 then Nop else if manager.active then AcOff else AcOn)
      && (manager.active ==> 0 <= manager.nextEventIndex < |Rows()|
                             && delay == DelayMs(manager.turnOffDay, Rows()[manager.nextEventIndex].off, now))
      && (!manager.active ==> (delay == -1 <==> NothingPlanned(Rows())))
      && (!manager.active && delay != -1 ==> Upcoming(Rows(), now, delay, manager.nextEventIndex, manager.turnOffDay))
    }

    /** The state that leaves the scheduler in, in terms of table and clock: there is something to wake up for, unless
        the next event falls into the very minute in which the scheduler looks for it. */
    ghost predicate WakesUp(now: Clock)
      reads this, manager, manager.entries
    {
      if manager.active then
        0 <= manager.nextEventIndex < |Rows()|
        && state == (if manager.turnOffDay == now.day && Rows()[manager.nextEventIndex].off == now.time
                     then Nop else AcOff)
      else state == (if NothingPlanned(Rows()) || DueNow(Rows(), now) then Nop else AcOn)
    }

    lemma ArmedWakesUp(now: Clock, timer0: int, delay: int)
      requires manager.Valid() && now.Valid() && Armed(now, timer0, delay)
      ensures WakesUp(now)
    {
      hide DelayMs, Upcoming, DueNow, NothingPlanned;
      if manager.active {
        DueExactly(manager.turnOffDay, Rows()[manager.nextEventIndex].off, now);
      } else if delay != -1 {
        UpcomingSign(Rows(), now, delay, manager.nextEventIndex, manager.turnOffDay);
      }
    }

    method ConfigWakeup(now: Clock) returns (ghost delay: int)
      requires manager.Valid() && armedAt.Valid() && now.Valid()
      modifies this`state, this`timer, this`armedAt, manager`nextEventIndex, manager`turnOffDay
      ensures manager.Valid() && Pending() && state in {Nop, AcOff, AcOn}
      ensures Armed(now, old(timer), delay) && WakesUp(now)
      ensures manager.active ==>
                manager.nextEventIndex == old(manager.nextEventIndex) && manager.turnOffDay == old(manager.turnOffDay)
    {
      hide Nearest, Planned, DelayMs, Upcoming, NothingPlanned, DueNow;
      state := Nop;
      var delayMs := manager.DelayToNearest(now);
      if delayMs > 0 {
        timer, armedAt := delayMs, now;
        state := if manager.active then AcOff else AcOn;
      }
      delay := delayMs;
      ArmedWakesUp(now, old(timer), delay);
    }

    /** The entry that starts now will be ended by the timer, after its running time to the second. */
    ghost predicate EndsAsPlanned(now: Clock)
      reads this, manager, manager.entries
    {
      0 <= manager.nextEventIndex < |Rows()| && state == AcOff
      && timer == RunningMs(Rows()[manager.nextEventIndex]) - now.sec * 1000
    }

    /** What an on-step in its own minute leads to: the entry starts at its on-time, and it ends as planned exactly if
        within one hour its off minute is the later one. With equal times it never ends: no timer is set. */
    ghost predicate Started(now: Clock, timer0: int)
      reads this, manager, manager.entries
    {
      0 <= manager.nextEventIndex < |Rows()| &&
      var e := Rows()[manager.nextEventIndex];
      now.time == e.on && (EndsAsPlanned(now) <==> RunsToPlan(e)) && (e.on == e.off <==> state == Nop)
      && (e.on == e.off ==> timer == timer0)
    }

    lemma StartsOnTime(armed: Clock, delay0: int, now: Clock, timer0: int, delay: int)
      requires manager.Valid() && armed.Valid() && now.Valid() && InMinuteOf(armed, delay0, now)
      requires Upcoming(Rows(), armed, delay0, manager.nextEventIndex, manager.turnOffDay)
      requires manager.active && Armed(now, timer0, delay)
      ensures Started(now, timer0)
    {
      hide DelayMs, Upcoming, RunsToPlan, OffDay, InMinuteOf;
      UpcomingInside(Rows(), armed, delay0, manager.nextEventIndex, manager.turnOffDay);
      RunsAsLongAsPlanned(Rows(), armed, delay0, manager.nextEventIndex, manager.turnOffDay, now);
    }

    /** The appliance ends up on, and the timer runs to the end of the entry that started. */
    method OnStep(now: Clock) returns (ghost delay: int)
      requires Valid() && now.Valid() && state == AcOn
      modifies this`state, this`timer, this`armedAt, manager`active, manager`nextEventIndex, manager`turnOffDay, remote
      ensures Valid() && Rows() == old(Rows()) && remote.powerState
      ensures remote.View() == After(old(remote.View()), SwitchOn)
      ensures remote.sent == old(remote.sent) + Frames(old(remote.View()), SwitchOn)
      ensures manager.active && Armed(now, old(timer), delay) && WakesUp(now) && state in {Nop, AcOff, AcOn}
      ensures manager.nextEventIndex == old(manager.nextEventIndex) && manager.turnOffDay == old(manager.turnOffDay)
      ensures old(OnTime(now)) ==> Started(now, old(timer))
    {
      hide Armed, WakesUp, Started, Upcoming, InMinuteOf, InRange, After, Frames, Appliance, TimesValid;
      assert old(Upcoming(Rows(), armedAt, timer, manager.nextEventIndex, manager.turnOffDay));
      UpcomingInside(Rows(), armedAt, timer, manager.nextEventIndex, manager.turnOffDay);
      remote.SwitchApplianceOn();
      manager.active := true;
      delay := ConfigWakeup(now);
      if old(OnTime(now)) {
        StartsOnTime(old(armedAt), old(timer), now, old(timer), delay);
      }
    }

    /** The appliance ends up off, on time at the off-time of the running entry. The entry is over exactly if the
        appliance was still on; had it been switched off by hand, nothing is rearmed and the entry stays active. */
    method OffStep(now: Clock) returns (ghost delay: int)
      requires Valid() && now.Valid() && state == AcOff
      modifies this`state, this`timer, this`armedAt, manager`active, manager`nextEventIndex, manager`turnOffDay, remote
      ensures Valid() && Rows() == old(Rows()) && !remote.powerState
      ensures remote.View() == After(old(remote.View()), SwitchOff)
      ensures remote.sent == old(remote.sent) + Frames(old(remote.View()), SwitchOff)
      ensures !manager.active <==> old(remote.powerState)
      ensures old(remote.powerState) ==> Armed(now, old(timer), delay) && WakesUp(now) && state in {Nop, AcOn}
      ensures !old(remote.powerState) ==> state == AcOff && timer == old(timer) && unchanged(manager)
      ensures old(OnTime(now)) ==>
                now == Clock(old(manager.turnOffDay), Rows()[old(manager.nextEventIndex)].off, now.sec)
    {
      hide WakesUp, Upcoming, InRange, Appliance, DelayMs;
      delay := 0;
      if OnTime(now) {
        WokenAtEvent(manager.turnOffDay, Rows()[manager.nextEventIndex].off, armedAt, now);
      }
      if remote.powerState {
        remote.SwitchApplianceOff();
        manager.active := false;
        delay := ConfigWakeup(now);
      }
    }

    /** Writes the row a request names, or the first free one. */
    method Update(data: Data) returns (reply: Reply)
      requires manager.Valid()
      modifies manager.entries
      ensures manager.Valid() && Rows() == UpdateTable(old(Rows()), data) && reply == UpdateReply(old(Rows()), data)
    {
      hide Transferred, WellFormed, TimesValid;
      UpdateTimesValid(Rows(), data);
      reply := Done;
      var f := ParseIndex(data);
      if f == Index(0, 0) {
        reply := WrongFormat;
      } else if f == New {
        var found, i := false, 0;
        while i < manager.entries.Length
          invariant i <= manager.entries.Length && Rows() == old(Rows()) && FirstFree(Rows(), 0) == FirstFree(Rows(), i)
        {
          if !manager.entries[i].isValid {
            var ok := TransferData(manager.entries, i, data[2..]);
            if !ok { reply := WrongFormat; }
            found := true;
            break;
          }
          i := i + 1;
        }
        if !found { reply := TableFull; }
      } else if f.value < manager.entries.Length {
        var ok := TransferData(manager.entries, f.value, data[f.length + 1..]);
        if !ok { reply := WrongFormat; }
      }
    }

    method Toggle(data: Data) returns (reply: Reply)
      requires manager.Valid() && NamesRow(|Rows()|, data)
      modifies manager.entries
      ensures manager.Valid() && Rows() == ToggleTable(old(Rows()), data) && reply == ToggleReply(old(Rows()), data)
    {
      reply := Done;
      var f := ParseIndex(data);
      if f.Index? && f.length > 0 {
        if manager.entries[f.value].isValid {
          manager.entries[f.value] := manager.entries[f.value].(isOn := !manager.entries[f.value].isOn);
        } else {
          reply := InvalidEntry;
        }
      } else {
        reply := WrongFormat;
      }
    }

    method DeleteRow(data: Data) returns (reply: Reply)
      requires manager.Valid() && NamesRow(|Rows()|, data)
      modifies manager.entries
      ensures manager.Valid() && Rows() == DeleteTable(old(Rows()), data)
      ensures reply == if HasRow(data) then Done else WrongFormat
    {
      hide Deleted, TimesValid;
      reply := Done;
      var f := ParseIndex(data);
      if f.Index? && f.length > 0 {
        DeletedTimesValid(Rows(), f.value);
        Delete(manager.entries, f.value);
      } else {
        reply := WrongFormat;
      }
    }

    /** The day and time at which the running entry is to end. */
    ghost function RunningEnd(): (Day, Time)
      requires 0 <= manager.nextEventIndex < |Rows()|
      reads manager, manager.entries
    {
      (manager.turnOffDay, Rows()[manager.nextEventIndex].off)
    }

    /** One round of the loop. Only the timer acts in the state the last round left; a request replaces that state. */
    method Round(w: Wake, data: Data, now: Clock) returns (reply: Reply, ghost delay: int)
      requires Valid() && now.Valid() && state in {Nop, AcOff, AcOn}
      requires w in {ToggleRequest, DeleteRequest} ==> NamesRow(|Rows()|, data)
      modifies this, manager, manager.entries, remote
      ensures Valid() && state in {Nop, AcOff, AcOn}
      ensures Rows() == TableOf(old(Rows()), w, data) && reply == ReplyTo(old(Rows()), w, data)
      ensures remote.sent == old(remote.sent) + (if w != TimerFired || old(state) == Nop then []
                else Frames(old(remote.View()), if old(state) == AcOn then SwitchOn else SwitchOff))
      ensures !(w == TimerFired && old(state) in {AcOn, AcOff}) ==>
                remote.View() == old(remote.View()) && remote.sent == old(remote.sent)
                && manager.active == old(manager.active)
      ensures w == TimerFired && old(state) == AcOn ==>
                remote.powerState && manager.active && Armed(now, old(timer), delay) && WakesUp(now)
                && (old(OnTime(now)) ==> Started(now, old(timer)))
      ensures w == TimerFired && old(state) == AcOff ==>
                !remote.powerState && (!manager.active <==> old(remote.powerState))
                && (if old(remote.powerState) then Armed(now, old(timer), delay) && WakesUp(now)
                    else state == AcOff && timer == old(timer) && unchanged(manager))
      ensures w == TimerFired && old(state) == Nop ==> state == Nop && timer == old(timer) && unchanged(manager)
      ensures w != TimerFired ==> Armed(now, old(timer), delay) && WakesUp(now)
      ensures w != TimerFired && old(manager.active) ==>
                manager.active && manager.nextEventIndex == old(manager.nextEventIndex) < |Rows()|
                && (RunningEnd() == old(RunningEnd()) <==>
                    KeepsOff(old(Rows()), w, data, old(manager.nextEventIndex)))
    {
      hide Armed, WakesUp, Started, Upcoming, DelayMs, InRange, UpdateTable, ToggleTable, DeleteTable, UpdateReply,
        ToggleReply, Frames, After,
        Appliance, TimesValid, InMinuteOf, KeepsOff;
      if manager.active {
        OffKept(Rows(), w, data, manager.nextEventIndex);
      }
      reply, delay := Done, 0;
      if w != TimerFired {
        state := if w == UpdateRequest then EventUpdate else if w == ToggleRequest then EventToggle else EventDelete;
      }
      match state
      case AcOn => delay := OnStep(now);
      case AcOff => delay := OffStep(now);
      case EventUpdate =>
        reply := Update(data);
        delay := ConfigWakeup(now);
      case EventToggle =>
        reply := Toggle(data);
        delay := ConfigWakeup(now);
      case EventDelete =>
        reply := DeleteRow(data);
        delay := ConfigWakeup(now);
      case Nop =>
    }
  }

  /** An entry that starts on time and is then switched off by hand: its off-step, on time or not, ends nothing. The
      entry stays active, and no timer is set anew. */
  method SwitchedOffByHand(scheduler: AcScheduler, command: Buffer, now: Clock, later: Clock)
    requires scheduler.Valid() && scheduler.state == AcOn && now.Valid() && later.Valid() && scheduler.OnTime(now)
    requires var m := scheduler.manager;
             0 <= m.nextEventIndex < m.entries.Length
             && m.entries[m.nextEventIndex].on != m.entries[m.nextEventIndex].off
    requires StartsWith(command, "POWER")
    modifies scheduler, scheduler.manager, scheduler.remote
    ensures !scheduler.remote.powerState && scheduler.manager.active && scheduler.state == AcOff
  {
    hide Upcoming, InMinuteOf, InRange, Appliance, DelayMs, NothingPlanned, TimesValid, RunsToPlan, Delta;
    ghost var armed := scheduler.OnStep(now);
    assert scheduler.state == AcOff && scheduler.remote.powerState;
    scheduler.remote.UpdateHandler(command);
    ghost var timer := scheduler.timer;
    armed := scheduler.OffStep(later);
    assert scheduler.timer == timer;
  }
}
