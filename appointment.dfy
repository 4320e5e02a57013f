/**
 * The appointment page around the slot generator: choosing the doctor from
 * the route parameter, regenerating the seven-day window for that doctor,
 * and turning the selected slot into a booking request.
 *
 * The page's React state (doctorInfo, docSlots) is the state of an
 * AppointmentPage object; the effects that the page runs when its inputs
 * change are its methods.
 */
module Appointment {
  import opened Wrappers
  import opened DateKeys
  import opened Slots

  /** The part of a doctor record the page's logic reads. */
  datatype Doctor = Doctor(id: string, slotsBooked: BookedSlots)

  /**
   * `doctors.find(doc => doc.id === docId)`: the first doctor with that id,
   * or None (undefined) when no doctor has it.
   */
  function FindDoctor(doctors: seq<Doctor>, docId: string): (r: Option<Doctor>)
    ensures r.None? <==> forall k :: 0 <= k < |doctors| ==> doctors[k].id != docId
    ensures r.Some? ==> r.value.id == docId
    ensures r.Some? ==>
      (exists k :: 0 <= k < |doctors| && doctors[k] == r.value && (forall j :: 0 <= j < k ==> doctors[j].id != docId))
  {
    if doctors == [] then None
    else if doctors[0].id == docId then Some(doctors[0])
    else
      var r := FindDoctor(doctors[1..], docId);
      assert forall k :: 1 <= k < |doctors| ==> doctors[k] == doctors[1..][k - 1];
      r
  }

  /** JavaScript truthiness of an optional string: undefined and "" are falsy. */
  predicate Truthy(s: Option<string>) {
    s.Some? && s.value != ""
  }

  /** What a click on "Schedule Now" leads to. */
  datatype BookingOutcome =
    | RedirectToLogin
      /** Reading the first slot of the selected day threw (no such day, or
          the day has no slot); the error is shown and nothing is sent. */
    | SelectionError
      /** The request posted to the booking endpoint. */
    | BookingRequest(docId: string, slotDate: string, slotTime: string)

  /**
   * bookAppointment up to the network call: without a login token the user is
   * sent to the login page; otherwise the slotDate of the request is the
   * booking key of the first slot of the selected day.
   */
  function BookAppointment(token: Option<string>, docId: string, docSlots: seq<seq<Slot>>,
                           slotIndex: nat, slotTime: string): (r: BookingOutcome)
    ensures r.RedirectToLogin? <==> !Truthy(token)
    ensures r.SelectionError? <==> Truthy(token) && (slotIndex >= |docSlots| || docSlots[slotIndex] == [])
    ensures r.BookingRequest? ==>
      slotIndex < |docSlots| && docSlots[slotIndex] != []
      && r == BookingRequest(docId, BookingKey(docSlots[slotIndex][0].date), slotTime)
  {
    if !Truthy(token) then RedirectToLogin
    else if slotIndex >= |docSlots| || docSlots[slotIndex] == [] then SelectionError
    else BookingRequest(docId, BookingKey(docSlots[slotIndex][0].date), slotTime)
  }

  /**
   * Booking from a freshly generated window: a logged-in booking of a day that
   * has a slot is sent under that day's BookingKey, which differs from the
   * key the generator looks bookings up under unless the weekday number
   * equals the day of the month.
   */
  lemma BookingFromSchedule(token: Option<string>, docId: string, now: Clock, days: seq<CalendarDay>,
                            booked: BookedSlots, i: nat, slotTime: string)
    requires Truthy(token) && i < |days|
    requires Schedule(now, days, booked)[i] != []
    ensures var r := BookAppointment(token, docId, Schedule(now, days, booked), i, slotTime);
      r == BookingRequest(docId, BookingKey(days[i]), slotTime)
      && (r.slotDate == LookupKey(days[i]) <==> days[i].weekday == days[i].dayOfMonth)
  {
    var day := Schedule(now, days, booked)[i];
    DaySlotsAt(days[i], LookupKey(days[i]), StartMinute(i, now), booked, 0);
    KeysAgree(days[i]);
  }

  /** The page's state: the doctor shown and the generated window. */
  class AppointmentPage {
    var doctorInfo: Option<Doctor>
    var docSlots: seq<seq<Slot>>

    constructor ()
      ensures doctorInfo == None && docSlots == []
    {
      doctorInfo := None;
      docSlots := [];
    }

    /**
     * The effect run when the doctor list or the route's docId changes: only
     * when both are present is doctorInfo replaced by the lookup's result.
     */
    method SelectDoctor(doctors: Option<seq<Doctor>>, docId: Option<string>)
      modifies this`doctorInfo
      ensures doctors.Some? && Truthy(docId) ==> doctorInfo == FindDoctor(doctors.value, docId.value)
      ensures !(doctors.Some? && Truthy(docId)) ==> doctorInfo == old(doctorInfo)
    {
      if doctors.Some? && Truthy(docId) {
        doctorInfo := FindDoctor(doctors.value, docId.value);
      }
    }

    /**
     * getAvailableSlots: clear the window, then append one list per day of
     * the window, in day order. days[i] is the calendar date i days after
     * today and `now` the time of day at which the page runs.
     */
    method GetAvailableSlots(now: Clock, days: seq<CalendarDay>)
      requires doctorInfo.Some?
      requires |days| == WindowDays
      modifies this`docSlots
      ensures docSlots == Schedule(now, days, doctorInfo.value.slotsBooked)
      ensures |docSlots| == WindowDays
      ensures doctorInfo == old(doctorInfo)
    {
      docSlots := [];
      var booked := doctorInfo.value.slotsBooked;
      for i := 0 to WindowDays
        invariant |docSlots| == i
        invariant forall k :: 0 <= k < i ==> docSlots[k] == WindowDay(now, days[k], k, booked)
      {
        var start := if i == 0 then TodayStart(now) else OpeningMinute;
        var timeSlots := AvailableSlotsOn(days[i], start, booked);
        docSlots := docSlots + [timeSlots];
      }
    }
  }
}
