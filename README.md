# Appointment slots — a Dafny model

This project models the logic of the appointment page of a patient-facing
medical booking web application (`src/pages/Appointment.jsx`). The page has
three pieces of logic:

- It picks the doctor named by the route's `docId` from the doctor list.
- It generates the bookable time slots of the next seven days for that doctor
  (`getAvailableSlots`).
- It turns the selected slot into a booking request (`bookAppointment`).

The slot generator walks a 30-minute grid for each day of a seven-day window.
Days 1 to 6 start at 10:00. Day 0 (today) starts at hour `max(10, hour + 1)`,
with the minute snapped to 30 when the current minute is past 30 and to 0
otherwise. Every grid stops strictly before 21:00. A grid time is dropped when
its display string is already listed in the doctor's `slotsBooked` under the
day's key. The seven lists are appended to the page's `docSlots` in day order.

Files and modules:

- `wrappers.dfy` (`Wrappers`): `Option`, for JavaScript's `undefined`.
- `text_format.dfy` (`TextFormat`): decimal text of numbers and the slot
  display time. The display time is written `hh:mm AM`/`hh:mm PM` and has a
  parser, so it is proved injective on the minutes of a day.
- `date_keys.dfy` (`DateKeys`): calendar days and the two `day_month_year`
  keys. `LookupKey` is the generator's key, built from the weekday.
  `BookingKey` is the booking's key, built from the day of the month.
- `slots.dfy` (`Slots`): the generator. `DaySlots` specifies one day's list.
  `Schedule` specifies the window. `AvailableSlotsOn` is the per-day loop.
  Lemmas cover grid bounds, order, booked-exclusion, completeness and counts.
- `appointment.dfy` (`Appointment`): the doctor lookup, the booking request,
  and the page state as a class. The class holds `doctorInfo` and `docSlots`.
  Its `GetAvailableSlots` method clears `docSlots` and appends seven day lists.

Times of day are minutes since midnight. A calendar day is given to the
generator as a value carrying year, 0-based month, day of the month and
weekday, as JavaScript's `Date` reports them. The caller supplies the seven
dates of the window and the current hour and minute. The clock and calendar
arithmetic are therefore parameters of the model.

## Model

| member | source | states |
|---|---|---|
| `TextFormat.NatToString` | src/pages/Appointment.jsx:73 | the decimal text of a number is non-empty and all digits, one digit exactly below 10, and has no leading zero (unpadded, like `n + ""`) |
| `TextFormat.NatToStringInjective` | src/pages/Appointment.jsx:73 | distinct numbers have distinct decimal texts, so key parts cannot collide |
| `TextFormat.TimeRoundTrip` | src/pages/Appointment.jsx:63-67 | the 12-hour `hh:mm AM/PM` display time of every minute of a day parses back to that minute |
| `TextFormat.FormatTime` | src/pages/Appointment.jsx:63-67 | the display time is eight characters; its meaning is stated by `TimeRoundTrip` and `FormatTimeInjective` |
| `TextFormat.FormatTimeInjective` | src/pages/Appointment.jsx:63-67 | two minutes of one day have equal display times if and only if they are equal |
| `DateKeys.JoinKeyInjective` | src/pages/Appointment.jsx:73 | two `a_b_c` keys are equal if and only if their three numbers are equal |
| `DateKeys.JoinKey` | src/pages/Appointment.jsx:73 | the `a + "_" + b + "_" + c` key text of lines 73 and 123; `JoinKeyInjective` states that equal keys come from equal numbers |
| `DateKeys.LookupKey` | src/pages/Appointment.jsx:69-73 | the generator's `weekday_month_year` key; `JoinKeyInjective` and `KeysAgree` state when two such keys are equal |
| `DateKeys.BookingKey` | src/pages/Appointment.jsx:119-123 | the booking's `dayOfMonth_month_year` key; `JoinKeyInjective` and `KeysAgree` state when it meets the generator's key |
| `DateKeys.KeysAgree` | src/pages/Appointment.jsx:119-123 | the booking key (day of month) equals the generator's key (weekday, lines 69-73) if and only if weekday number and day of month coincide |
| `DateKeys.JuneTenthKeys` | src/pages/Appointment.jsx:69-73 | for Monday 10 June 2024 the booking key is `10_6_2024` and the generator's key is `1_6_2024`, which is also the booking key of Saturday 1 June 2024 |
| `Slots.IsBooked` | src/pages/Appointment.jsx:76-80 | a time is booked for a key when the key has an entry (an empty list counts, as in JavaScript) and the entry includes the time; `DaySlotsMembers` states that exactly the unbooked times are offered |
| `Slots.TodayStart` | src/pages/Appointment.jsx:53-55 | today's first grid time is in hour `max(10, hour + 1)`, at or after 10:00, on the half hour, strictly after now, 30 to 60 minutes ahead from 9:00 on; its minute is :30 exactly when the current minute is past 30 |
| `Slots.QuarterToNineStart` | src/pages/Appointment.jsx:53-55 | at 08:45 today's grid starts at 10:30 |
| `Slots.StartMinute` | src/pages/Appointment.jsx:53-58 | today starts at `TodayStart`, strictly after now; every later day starts at exactly 10:00; every start is on the half hour at or after 10:00 |
| `Slots.TodayGridNonEmpty` | src/pages/Appointment.jsx:53-62 | today's grid has a time before 21:00 if and only if the current hour is before 20 |
| `Slots.DaySlots` | src/pages/Appointment.jsx:62-91 | one day's list; its members are stated by `DaySlotsMembers`, its order by `DaySlotsIncreasing`, its size by `UnbookedDayLength` |
| `Slots.DaySlotsMembers` | src/pages/Appointment.jsx:62-91 | a slot is in a day's list if and only if it is on that day, on the 30-minute grid from the start and before 21:00, carries its own display time, and that time is not in `slotsBooked[key]` |
| `Slots.DaySlotsAt` | src/pages/Appointment.jsx:62-91 | every listed slot is on the grid, before 21:00, on its day, and unbooked |
| `Slots.DaySlotsIncreasing` | src/pages/Appointment.jsx:62-91 | within a day the slots are in strictly increasing time order |
| `Slots.DaySlotsDistinctTimes` | src/pages/Appointment.jsx:63-88 | no two slots of a day share a display time |
| `Slots.UnbookedDayLength` | src/pages/Appointment.jsx:50-62 | with nothing booked for the key, a day has one slot per grid time from its start to 21:00 |
| `Slots.UnbookedDayAt` | src/pages/Appointment.jsx:57-90 | with nothing booked, the k-th slot of a day is at start + 30k |
| `Slots.FullDay` | src/pages/Appointment.jsx:57-62 | a day after today with nothing booked has exactly 22 slots, 10:00 first and 20:30 last |
| `Slots.LateTodayEmpty` | src/pages/Appointment.jsx:53-62 | from 20:00 on, today's list is empty and nothing fails |
| `Slots.WindowDay` | src/pages/Appointment.jsx:47-91 | one pass of the window's loop: the list of the day `offset` days ahead, from its start minute, under its weekday key; `ScheduleMembers` and `WindowFullDay` state its contents |
| `Slots.WindowFullDay` | src/pages/Appointment.jsx:57-62 | every window day after today with nothing booked under its key holds 22 slots, 10:00 first and 20:30 last |
| `Slots.Schedule` | src/pages/Appointment.jsx:46-93 | the window holds exactly one list per day of the window (contents: `ScheduleMembers`) |
| `Slots.ScheduleMembers` | src/pages/Appointment.jsx:46-91 | day i of the window holds exactly the unbooked grid times of days[i] from that day's start, read under the weekday key |
| `Slots.LookupKeyMissesBooking` | src/pages/Appointment.jsx:69-82 | as written, a 10:00 booking stored under the booking key is still offered on any later day whose weekday number differs from its day of the month |
| `Slots.ScheduleByDate` | src/pages/Appointment.jsx:119-123 | the intended window, looked up under the booking key, holds exactly one list per day (what it excludes: `ScheduleByDateHonoursBookings`) |
| `Slots.ScheduleByDateHonoursBookings` | src/pages/Appointment.jsx:76-82 | under the booking key, no time booked for a day is offered on that day |
| `Slots.MorningTimes` | src/pages/Appointment.jsx:63-67 | 10:00 and 10:30 display as `10:00 AM` and `10:30 AM` |
| `Slots.JuneTenthScenario` | src/pages/Appointment.jsx:53-82 | Monday 10 June 2024 at 09:00 with `10:00 AM` booked: as written 10:00 AM is still offered; the intended window starts at 10:30 AM |
| `Slots.JuneFirstBookingHidesJuneTenth` | src/pages/Appointment.jsx:69-82 | with `10:00 AM` booked on Saturday 1 June 2024 (key `1_6_2024`), the as-written list of Monday 10 June 2024 at 09:00 wrongly omits 10:00 AM, while the booking-key list offers it |
| `Slots.AvailableSlotsOn` | src/pages/Appointment.jsx:60-91 | the per-day loop returns exactly the day's specified list |
| `Appointment.FindDoctor` | src/pages/Appointment.jsx:36 | returns a doctor with the id, the first such in the list, or None exactly when no doctor has it |
| `Appointment.AppointmentPage.SelectDoctor` | src/pages/Appointment.jsx:34-39 | only when the list and a truthy `docId` are present is `doctorInfo` replaced by the lookup result; otherwise it is unchanged |
| `Appointment.AppointmentPage.constructor` | src/pages/Appointment.jsx:19-22 | the page starts with no doctor and an empty window |
| `Appointment.AppointmentPage.GetAvailableSlots` | src/pages/Appointment.jsx:42-95 | the page's `docSlots` becomes exactly the seven-day window for the doctor's bookings; the doctor is unchanged |
| `Appointment.Truthy` | src/pages/Appointment.jsx:35 | JavaScript truthiness of the optional `docId` and `token` strings (line 111): undefined and the empty string are falsy; `SelectDoctor` and `BookAppointment` state its effect |
| `Appointment.BookAppointment` | src/pages/Appointment.jsx:111-123 | a falsy token redirects to login and sends nothing; a missing or empty selected day is an error; otherwise the request carries the doctor id, the booking key of the selected day's first slot, and the selected time |
| `Appointment.BookingFromSchedule` | src/pages/Appointment.jsx:117-123 | booking from a generated window sends that day's booking key, which equals the key the generator looked bookings up under only when weekday and day of month coincide |

## Findings

| source | as written | input that shows it | evidently intended | confidence | as-written member | corrected member |
|---|---|---|---|---|---|---|
| src/pages/Appointment.jsx:69-73 | the generator looks bookings up under `getDay()_month_year`, using the weekday 0..6, while bookings are submitted under `getDate()_month_year` (lines 119-123) | Monday 10 June 2024 at 09:00 with `slotsBooked = {"10_6_2024": ["10:00 AM"]}`: the lookup uses `1_6_2024` and 10:00 AM is still offered | look bookings up under the day-of-month key the booking call sends, so a booked time is not offered again | likely; not executed | `Slots.LookupKeyMissesBooking` | `Slots.ScheduleByDateHonoursBookings` |

The page model (`AppointmentPage.GetAvailableSlots`, `Schedule`) keeps the
weekday key as written, since that is the behaviour of the page.
`ScheduleByDate` is the corrected window. The two differ only in the key.
`ScheduleByDateHonoursBookings` proves the corrected window never offers a
booked time. `JuneTenthScenario` shows both on the input above. The same
mismatch also hides free times: `1_6_2024` is the booking key of Saturday
1 June 2024, so `JuneFirstBookingHidesJuneTenth` shows a 10:00 booking on
1 June removing 10:00 AM from Monday 10 June's list.

## Left out

- React state hooks, effects and JSX rendering are not modelled. The `isBooked` styling branch is omitted because the generator never sets that field. The effects' re-run triggers are also left out. The state updates of `getAvailableSlots` are modelled as assignments to `docSlots`; React's batching of the functional updates yields the same final value.
- The POST to the booking endpoint and the handling of its response are left out as network I/O. So are the toasts, `navigate`, `getDoctorsData` and `console.log`. `BookAppointment` stops at the request it would send.
- Calendar arithmetic is a parameter. The caller supplies the seven `CalendarDay` values of the window, so month and year rollover and DST are outside the model.
- Day 0 at 23:xx: the source's `setHours(24)` moves that `Date` to the next day. The model instead lets the start minute run past midnight. Both give an empty day-0 list, because the start lies after that day's 21:00.
- The seconds and milliseconds that day 0 keeps from "now" are left out. They change neither the `< 21:00` test nor the `hh:mm` display string.
- `toLocaleTimeString("en-PK", …)` is a locale library call. `FormatTime` stands in for it as `hh:mm AM`/`hh:mm PM`. The general lemmas about the generator rely only on the formatter being injective on the minutes of a day. The 10 June 2024 scenarios (`MorningTimes`, `JuneTenthScenario`, `JuneFirstBookingHidesJuneTenth`) assume the exact `10:00 AM` text. The exact marker case the locale produces is not reproduced.
- `AppointmentPage.GetAvailableSlots` requires a present `doctorInfo`. Without one, the source throws a TypeError at its first grid time. The model follows the code here, not the expectation that an absent doctor gives an empty window.
- A `slotsBooked` entry is modelled as a list of strings. A present but falsy entry (`null`) is not modelled.
- Doctor fields other than `id` and `slotsBooked` are left out because only the rendering reads them.
- The selected day index and time are parameters of `BookAppointment`, because clicks set them. The selected time is not required to be a slot of the selected day, and the source does not require it either.
- Years are natural numbers. Negative years are not modelled.
