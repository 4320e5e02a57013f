/**
 * The slot generator of the appointment page: for each of the seven days of
 * the rolling window it walks a 30-minute grid from the day's start time up
 * to, but not including, 21:00, and keeps every time whose display string is
 * not already booked under the day's key.
 *
 * Times of day are minutes since midnight. DaySlots is the specification of
 * one day's list; Schedule that of the whole window. The loop that computes
 * one day is AvailableSlotsOn; the loop over the seven days is
 * Appointment.AppointmentPage.GetAvailableSlots.
 */
module Slots {
  import opened TextFormat
  import opened DateKeys

  /** 10:00, the first slot of every day after today. */
  const OpeningMinute := 600
  /** 21:00, the exclusive end of every day's grid. */
  const ClosingMinute := 1260
  /** Length of one slot. */
  const SlotMinutes := 30
  /** Number of days in the window, today included. */
  const WindowDays := 7

  type Hour = h: nat | h < 24
  type MinuteOfHour = m: nat | m < 60

  /** The wall-clock time at which the slots are generated. */
  datatype Clock = Clock(hour: Hour, minute: MinuteOfHour)

  function ClockMinute(now: Clock): nat { now.hour * 60 + now.minute }

  /** One bookable slot: its day, its minute of the day and its display time. */
  datatype Slot = Slot(date: CalendarDay, minute: nat, time: string)

  /** A doctor's booked times: date key to the display times taken that day. */
  type BookedSlots = map<string, seq<string>>

  predicate IsBooked(booked: BookedSlots, key: string, time: string) {
    key in booked && time in booked[key]
  }

  function Max(a: int, b: int): int { if a < b then b else a }

  /**
   * First grid time of today: the hour max(10, hour + 1) with the minute
   * snapped to 30 when the current minute is past 30, else to 0. The result
   * is never before 10:00, always after the current time, on the half-hour
   * grid, and from 9:00 on it is between 30 and 60 minutes ahead.
   */
  function TodayStart(now: Clock): (r: nat)
    ensures r / 60 == Max(10, now.hour + 1)
    ensures OpeningMinute <= r && r % SlotMinutes == 0
    ensures ClockMinute(now) < r
    ensures now.hour >= 9 ==> ClockMinute(now) + 30 <= r <= ClockMinute(now) + 60
    ensures now.minute > 30 ==> r % 60 == 30
    ensures now.minute <= 30 ==> r % 60 == 0
  {
    Max(10, now.hour + 1) * 60 + (if now.minute > 30 then 30 else 0)
  }

  /**
   * The coarse snapping: at 08:45 today starts at 10:30, so 10:00 is never
   * offered although it is more than an hour ahead.
   */
  lemma QuarterToNineStart(now: Clock)
    requires now == Clock(8, 45)
    ensures TodayStart(now) == 630
  {
  }

  /** Today offers a grid time at all exactly when it is before 20:00. */
  lemma TodayGridNonEmpty(now: Clock)
    ensures TodayStart(now) < ClosingMinute <==> now.hour < 20
  {
  }

  /** Start of the grid of day `offset` of the window (0 is today). */
  function StartMinute(offset: nat, now: Clock): (r: nat)
    ensures OpeningMinute <= r && r % SlotMinutes == 0
    ensures offset > 0 || ClockMinute(now) < r
    ensures offset == 0 ==> r == TodayStart(now)
    ensures offset > 0 ==> r == OpeningMinute
  {
    if offset == 0 then TodayStart(now) else OpeningMinute
  }

  function GridMeasure(t: nat): nat {
    if t < ClosingMinute then ClosingMinute - t else 0
  }

  /**
   * The slots of `day` from grid time `t` on: one per 30-minute step before
   * 21:00, dropping those whose display time is booked under `key`.
   */
  function DaySlots(day: CalendarDay, key: string, t: nat, booked: BookedSlots): seq<Slot>
    decreases GridMeasure(t)
  {
    if t >= ClosingMinute then []
    else
      var time := FormatTime(t);
      (if IsBooked(booked, key, time) then [] else [Slot(day, t, time)])
        + DaySlots(day, key, t + SlotMinutes, booked)
  }

  /** Grid times at or after `start`, before 21:00, in 30-minute steps. */
  predicate OnGrid(start: nat, m: nat) {
    start <= m < ClosingMinute && (m - start) % SlotMinutes == 0
  }

  /**
   * Exactly the unbooked grid times are emitted: a slot is in the day's list
   * if and only if it is on that day, on the grid, carries its own display
   * time, and that time is not booked under the key.
   */
  lemma {:induction false} DaySlotsMembers(day: CalendarDay, key: string, t: nat, booked: BookedSlots, s: Slot)
    ensures s in DaySlots(day, key, t, booked) <==>
      s.date == day && OnGrid(t, s.minute) && s.time == FormatTime(s.minute) && !IsBooked(booked, key, s.time)
    decreases GridMeasure(t)
  {
    if t < ClosingMinute {
      var time := FormatTime(t);
      var head := if IsBooked(booked, key, time) then [] else [Slot(day, t, time)];
      assert DaySlots(day, key, t, booked) == head + DaySlots(day, key, t + SlotMinutes, booked);
      DaySlotsMembers(day, key, t + SlotMinutes, booked, s);
      GridStep(t, s.minute);
    }
  }

  /** The grid from `t` is `t` itself followed by the grid from t + 30. */
  lemma GridStep(t: nat, m: nat)
    requires t < ClosingMinute
    ensures OnGrid(t, m) <==> m == t || OnGrid(t + SlotMinutes, m)
  {
    if t < m {
      assert (m - t) % SlotMinutes == (m - (t + SlotMinutes)) % SlotMinutes;
    }
  }

  /** Every emitted slot of the list is a member in the sense of DaySlotsMembers. */
  lemma DaySlotsAt(day: CalendarDay, key: string, t: nat, booked: BookedSlots, k: nat)
    requires k < |DaySlots(day, key, t, booked)|
    ensures var s := DaySlots(day, key, t, booked)[k];
      s.date == day && OnGrid(t, s.minute) && s.time == FormatTime(s.minute) && !IsBooked(booked, key, s.time)
  {
    DaySlotsMembers(day, key, t, booked, DaySlots(day, key, t, booked)[k]);
  }

  /** Slots in strictly increasing time order. */
  predicate Increasing(r: seq<Slot>) {
    forall i, j :: 0 <= i < j < |r| ==> r[i].minute < r[j].minute
  }

  lemma PrependIncreasing(x: Slot, rest: seq<Slot>)
    requires Increasing(rest)
    requires forall k :: 0 <= k < |rest| ==> x.minute < rest[k].minute
    ensures Increasing([x] + rest)
  {
    var r := [x] + rest;
    forall i, j | 0 <= i < j < |r| ensures r[i].minute < r[j].minute {
      assert r[j] == rest[j - 1];
      if i > 0 {
        assert r[i] == rest[i - 1];
      }
    }
  }

  /** Within a day the slots are in strictly increasing time order. */
  lemma {:induction false} DaySlotsIncreasing(day: CalendarDay, key: string, t: nat, booked: BookedSlots)
    ensures Increasing(DaySlots(day, key, t, booked))
    decreases GridMeasure(t)
  {
    if t < ClosingMinute {
      var rest := DaySlots(day, key, t + SlotMinutes, booked);
      DaySlotsIncreasing(day, key, t + SlotMinutes, booked);
      if !IsBooked(booked, key, FormatTime(t)) {
        var x := Slot(day, t, FormatTime(t));
        forall k | 0 <= k < |rest| ensures x.minute < rest[k].minute {
          DaySlotsAt(day, key, t + SlotMinutes, booked, k);
        }
        PrependIncreasing(x, rest);
      }
    }
  }

  /** No two slots of a day share a display time, so a booking by display
      time names one slot. */
  lemma DaySlotsDistinctTimes(day: CalendarDay, key: string, t: nat, booked: BookedSlots)
    ensures var r := DaySlots(day, key, t, booked);
      forall i, j :: 0 <= i < j < |r| ==> r[i].time != r[j].time
  {
    var r := DaySlots(day, key, t, booked);
    DaySlotsIncreasing(day, key, t, booked);
    assert Increasing(r);
    forall i, j | 0 <= i < j < |r| ensures r[i].time != r[j].time {
      DaySlotsAt(day, key, t, booked, i);
      DaySlotsAt(day, key, t, booked, j);
      FormatTimeInjective(r[i].minute, r[j].minute);
    }
  }

  /** Number of grid times from `t` up to 21:00. */
  function GridSize(t: nat): nat {
    if t < ClosingMinute then (ClosingMinute - t + SlotMinutes - 1) / SlotMinutes else 0
  }

  /** Nothing is booked under `key`. */
  predicate NoneBooked(booked: BookedSlots, key: string) {
    key !in booked || booked[key] == []
  }

  lemma GridSizeStep(t: nat)
    requires t < ClosingMinute
    ensures GridSize(t) == 1 + GridSize(t + SlotMinutes)
  {
  }

  lemma UnbookedHead(day: CalendarDay, key: string, t: nat, booked: BookedSlots)
    requires NoneBooked(booked, key) && t < ClosingMinute
    ensures DaySlots(day, key, t, booked) == [Slot(day, t, FormatTime(t))] + DaySlots(day, key, t + SlotMinutes, booked)
  {
  }

  /** With nothing booked the day's list has one slot per grid time. */
  lemma {:induction false} UnbookedDayLength(day: CalendarDay, key: string, t: nat, booked: BookedSlots)
    requires NoneBooked(booked, key)
    ensures |DaySlots(day, key, t, booked)| == GridSize(t)
    decreases GridMeasure(t)
  {
    if t < ClosingMinute {
      assert !IsBooked(booked, key, FormatTime(t));
      UnbookedDayLength(day, key, t + SlotMinutes, booked);
      GridSizeStep(t);
    }
  }

  /** With nothing booked the k-th slot of the day is at t + 30k (its date and
      display time are those of every member, see DaySlotsAt). */
  lemma {:induction false} UnbookedDayAt(day: CalendarDay, key: string, t: nat, booked: BookedSlots, k: nat)
    requires NoneBooked(booked, key)
    requires k < GridSize(t)
    ensures k < |DaySlots(day, key, t, booked)|
    ensures DaySlots(day, key, t, booked)[k].minute == t + SlotMinutes * k
    decreases k
  {
    UnbookedDayLength(day, key, t, booked);
    var r := DaySlots(day, key, t, booked);
    var rest := DaySlots(day, key, t + SlotMinutes, booked);
    UnbookedHead(day, key, t, booked);
    if k > 0 {
      GridSizeStep(t);
      UnbookedDayAt(day, key, t + SlotMinutes, booked, k - 1);
      assert r[k] == rest[k - 1];
    }
  }

  /** Any day after today with nothing booked offers 22 slots,
      10:00 first and 20:30 last. */
  lemma FullDay(day: CalendarDay, key: string, booked: BookedSlots)
    requires NoneBooked(booked, key)
    ensures var r := DaySlots(day, key, OpeningMinute, booked);
      |r| == 22 && r[0].minute == 600 && r[21].minute == 1230
  {
    UnbookedDayLength(day, key, OpeningMinute, booked);
    UnbookedDayAt(day, key, OpeningMinute, booked, 0);
    UnbookedDayAt(day, key, OpeningMinute, booked, 21);
  }

  /** Today's list is empty, without error, once the current hour is 20 or later. */
  lemma LateTodayEmpty(now: Clock, day: CalendarDay, key: string, booked: BookedSlots)
    requires now.hour >= 20
    ensures DaySlots(day, key, TodayStart(now), booked) == []
  {
  }

  /** The list of one day of the window, `offset` days after today. */
  function WindowDay(now: Clock, day: CalendarDay, offset: nat, booked: BookedSlots): seq<Slot> {
    DaySlots(day, LookupKey(day), StartMinute(offset, now), booked)
  }

  /** Every day of the window after today with nothing booked under its
      key offers 22 slots, 10:00 first and 20:30 last. */
  lemma WindowFullDay(now: Clock, days: seq<CalendarDay>, booked: BookedSlots, i: nat)
    requires 1 <= i < |days|
    requires NoneBooked(booked, LookupKey(days[i]))
    ensures var r := Schedule(now, days, booked)[i];
      |r| == 22 && r[0].minute == OpeningMinute && r[21].minute == 1230
  {
    FullDay(days[i], LookupKey(days[i]), booked);
  }

  /**
   * The whole window as the page computes it: one list per day, in day
   * order, each looked up under the weekday-based LookupKey.
   */
  function Schedule(now: Clock, days: seq<CalendarDay>, booked: BookedSlots): (r: seq<seq<Slot>>)
    ensures |r| == |days|
  {
    seq(|days|, i requires 0 <= i < |days| => WindowDay(now, days[i], i, booked))
  }

  /**
   * The window as intended: the same grids, looked up under BookingKey, the
   * key bookings are submitted with.
   */
  function ScheduleByDate(now: Clock, days: seq<CalendarDay>, booked: BookedSlots): (r: seq<seq<Slot>>)
    ensures |r| == |days|
  {
    seq(|days|, i requires 0 <= i < |days| => DaySlots(days[i], BookingKey(days[i]), StartMinute(i, now), booked))
  }

  /**
   * Day `i` of the page's window holds exactly the unbooked grid times of
   * days[i] from its start time, where "booked" is read under LookupKey.
   */
  lemma ScheduleMembers(now: Clock, days: seq<CalendarDay>, booked: BookedSlots, i: nat, s: Slot)
    requires i < |days|
    ensures s in Schedule(now, days, booked)[i] <==>
      s.date == days[i] && OnGrid(StartMinute(i, now), s.minute) && s.time == FormatTime(s.minute)
      && !IsBooked(booked, LookupKey(days[i]), s.time)
  {
    DaySlotsMembers(days[i], LookupKey(days[i]), StartMinute(i, now), booked, s);
  }

  /**
   * A time booked through the booking call (under BookingKey) is never offered
   * by the intended window.
   */
  lemma ScheduleByDateHonoursBookings(now: Clock, days: seq<CalendarDay>, booked: BookedSlots, i: nat, s: Slot)
    requires i < |days|
    requires IsBooked(booked, BookingKey(days[i]), s.time)
    ensures s !in ScheduleByDate(now, days, booked)[i]
  {
    DaySlotsMembers(days[i], BookingKey(days[i]), StartMinute(i, now), booked, s);
  }

  /**
   * As written, a booking stored under BookingKey does not hide its slot: for
   * any later day whose weekday number differs from its day of the month,
   * a booked 10:00 is still offered.
   */
  lemma LookupKeyMissesBooking(now: Clock, days: seq<CalendarDay>, i: nat)
    requires 1 <= i < |days|
    requires days[i].weekday != days[i].dayOfMonth
    ensures var booked := map[BookingKey(days[i]) := [FormatTime(OpeningMinute)]];
      IsBooked(booked, BookingKey(days[i]), FormatTime(OpeningMinute))
      && Slot(days[i], OpeningMinute, FormatTime(OpeningMinute)) in Schedule(now, days, booked)[i]
  {
    var booked := map[BookingKey(days[i]) := [FormatTime(OpeningMinute)]];
    KeysAgree(days[i]);
    ScheduleMembers(now, days, booked, i, Slot(days[i], OpeningMinute, FormatTime(OpeningMinute)));
  }

  /** One step of the walk: if the slots before grid time `t` are `done`,
      appending t's slot (when unbooked) gives the slots before t + 30. */
  lemma DaySlotsStep(day: CalendarDay, key: string, start: nat, t: nat, booked: BookedSlots, done: seq<Slot>)
    requires t < ClosingMinute
    requires done + DaySlots(day, key, t, booked) == DaySlots(day, key, start, booked)
    ensures var next := if IsBooked(booked, key, FormatTime(t)) then done else done + [Slot(day, t, FormatTime(t))];
      next + DaySlots(day, key, t + SlotMinutes, booked) == DaySlots(day, key, start, booked)
  {
    var rest := DaySlots(day, key, t + SlotMinutes, booked);
    if IsBooked(booked, key, FormatTime(t)) {
      assert DaySlots(day, key, t, booked) == [] + rest;
    } else {
      var x := Slot(day, t, FormatTime(t));
      assert DaySlots(day, key, t, booked) == [x] + rest;
      assert (done + [x]) + rest == done + ([x] + rest);
    }
  }

  /** The display times of 10:00 and 10:30. */
  lemma MorningTimes()
    ensures FormatTime(600) == "10:00 AM" && FormatTime(630) == "10:30 AM"
  {
  }

  /**
   * Monday 10 June 2024 at 09:00 with 10:00 AM booked under "10_6_2024": the
   * page looks the day up under "1_6_2024" and still offers 10:00 AM, while
   * the intended window drops it and offers 10:30 AM.
   */
  lemma JuneTenthScenario(d: CalendarDay, now: Clock, booked: BookedSlots)
    requires d == CalendarDay(2024, 5, 10, 1) && now == Clock(9, 0)
    requires booked == map["10_6_2024" := ["10:00 AM"]]
    ensures Slot(d, 600, "10:00 AM") in DaySlots(d, LookupKey(d), TodayStart(now), booked)
    ensures Slot(d, 600, "10:00 AM") !in DaySlots(d, BookingKey(d), TodayStart(now), booked)
    ensures Slot(d, 630, "10:30 AM") in DaySlots(d, BookingKey(d), TodayStart(now), booked)
    ensures DaySlots(d, BookingKey(d), TodayStart(now), booked)[0] == Slot(d, 630, "10:30 AM")
    ensures ValidDay(d)
  {
    JuneTenthKeys();
    MorningTimes();
    assert TodayStart(now) == 600;
    assert OnGrid(600, 630);
    DaySlotsMembers(d, LookupKey(d), 600, booked, Slot(d, 600, "10:00 AM"));
    DaySlotsMembers(d, BookingKey(d), 600, booked, Slot(d, 600, "10:00 AM"));
    DaySlotsMembers(d, BookingKey(d), 600, booked, Slot(d, 630, "10:30 AM"));
    var r := DaySlots(d, BookingKey(d), 600, booked);
    var k :| 0 <= k < |r| && r[k] == Slot(d, 630, "10:30 AM");
    DaySlotsAt(d, BookingKey(d), 600, booked, 0);
    DaySlotsIncreasing(d, BookingKey(d), 600, booked);
    assert r[0].minute != 600;
  }

  /**
   * The same mismatch hides slots that are free: a 10:00 AM booking made for
   * Saturday 1 June 2024 is submitted under "1_6_2024", the key the page
   * reads for Monday 10 June 2024, so 10:00 AM on 10 June is not offered.
   */
  lemma JuneFirstBookingHidesJuneTenth(june1: CalendarDay, june10: CalendarDay, now: Clock, booked: BookedSlots)
    requires june1 == CalendarDay(2024, 5, 1, 6) && june10 == CalendarDay(2024, 5, 10, 1)
    requires now == Clock(9, 0)
    requires booked == map[BookingKey(june1) := ["10:00 AM"]]
    ensures ValidDay(june1) && ValidDay(june10)
    ensures BookingKey(june1) == LookupKey(june10)
    ensures Slot(june10, 600, "10:00 AM") !in DaySlots(june10, LookupKey(june10), TodayStart(now), booked)
    ensures Slot(june10, 600, "10:00 AM") in DaySlots(june10, BookingKey(june10), TodayStart(now), booked)
  {
    JuneTenthKeys();
    MorningTimes();
    assert TodayStart(now) == 600;
    DaySlotsMembers(june10, LookupKey(june10), 600, booked, Slot(june10, 600, "10:00 AM"));
    DaySlotsMembers(june10, BookingKey(june10), 600, booked, Slot(june10, 600, "10:00 AM"));
  }

  /**
   * The loop of one day: walk the grid from `start`, format each time, build
   * the lookup key and keep the time unless it is booked.
   */
  method AvailableSlotsOn(day: CalendarDay, start: nat, booked: BookedSlots) returns (timeSlots: seq<Slot>)
    ensures timeSlots == DaySlots(day, LookupKey(day), start, booked)
  {
    timeSlots := [];
    var current: nat := start;
    ghost var key := LookupKey(day);
    while current < ClosingMinute
      invariant key == LookupKey(day)
      invariant timeSlots + DaySlots(day, key, current, booked) == DaySlots(day, key, start, booked)
      decreases GridMeasure(current)
    {
      DaySlotsStep(day, key, start, current, booked, timeSlots);
      var formattedTime := FormatTime(current);
      var slotDate := LookupKey(day);
      var isSlotAvailable := !IsBooked(booked, slotDate, formattedTime);
      if isSlotAvailable {
        timeSlots := timeSlots + [Slot(day, current, formattedTime)];
      }
      current := current + SlotMinutes;
    }
    assert DaySlots(day, key, current, booked) == [];
    assert timeSlots + [] == timeSlots;
  }
}
