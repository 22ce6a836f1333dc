# Flight fare watcher — a Dafny model of its core

The watcher (`script.js`) asks the user for a departure date, polls a
fare-search endpoint on a timer, and raises a phone notification whenever the
adult fare of the flight it tracks changes, or when no priced flight is
offered. This project models the two parts of it that are logic rather than
I/O, and proves what they promise:

- **The strict date validator** `isValidStrictDate` (module `StrictDate`,
  `strict_date.dfy`). It checks the shape `YYYY-MM-DD`, the year range
  1000..9999 and the month range 1..12. Then it builds a JavaScript `Date` and
  checks that the year, month and day read back unchanged. `DateFromFields`
  models that round trip. It gives the real date of the proleptic Gregorian
  calendar whose day number equals that of the given fields, so an
  out-of-range day rolls over into the next or previous month, as `Date`
  does. `DayNumberInjective` shows that no other answer is possible.
  `StrictDateMeaning` then proves what the validator accepts. It accepts a
  well-shaped string exactly when the year is at least 1000, the month is
  1..12 and the day is 1..days-in-month. A year is a leap year when it is
  divisible by 4, except by 100 unless also by 400.
- **The fare tracker** (modules `Flights`, `Tracker` and `TrackerProperties`).
  The source keeps three module-level variables: `minPrice`, `minFlight` and
  `notFound`. Class `Tracker.FareWatcher` holds them as fields. A fourth
  field, `notices`, is the log of notifications raised so far. It stands in
  for the OS notification command. The handlers `notFoundHandler`,
  `flightHandler`, `increaseHandler`, `decreaseHandler` and `infoTextMaker`
  are methods, and so is one polling cycle of `checkData`. Each method is
  proved equal to a function over `TrackerState`, the same variables as a
  value. `TrackerProperties` proves the behaviour about those functions:
  - "Not Found" is edge-triggered.
  - An equal fare is silent.
  - A different fare is classified as Up or Down against the old one.
  - A flight with no first leg raises "Not Found" instead of a price change.
  - A cycle hands on the first priced flight.
  - Each cycle adds at most one notification.
  - The invariant `Tracker.Inv` holds between cycles: the remembered fare is
    the adult fare of the remembered flight, and 0 when there is none.

Two facts of the code that the model follows:

- The flight a cycle hands on is the **first** flight with a non-empty
  `Prices` list (script.js:173-178). Nothing computes a minimum, whatever the
  variable names suggest.
- At start-up `minPrice` is 0. A first positive fare therefore takes the
  `adlPrice > minPrice` branch and is reported as **Up** from 0
  (script.js:59, 114-115). One might expect a first observation to count as
  a decrease; the code reports it as Up, and so does the model
  (`TrackerProperties.FirstPositiveFareReportedUp`,
  `TrackerProperties.ThreeCycleExample`).

A flight whose passenger fares have no `ADL` entry makes
`adlPasanger.TotalFare` throw (script.js:107-108). The promise's `catch`
handler then raises "Error in Fetch" (script.js:184-186). The model keeps
that outcome without modelling exceptions:

- `FlightHandler` returns `threw`, and `CheckData` raises `FetchError`.
- `notFound` has already been cleared by then (script.js:105), and the model
  keeps that too.
- The remembered fare and flight are untouched.

## Model

| member | source | states |
|---|---|---|
| `StrictDate.IsValidStrictDate` | script.js:11-31 | an accepted string is exactly ten characters of the shape 4 digits, '-', 2 digits, '-', 2 digits |
| `StrictDate.StrictDateMeaning` | script.js:11-31 | accepted exactly when well shaped, year >= 1000, month in 1..12 and day in 1..days-in-month of that year and month |
| `StrictDate.OutOfRangeRejected` | script.js:22 | a well-shaped string with year < 1000 or month outside 1..12 is refused |
| `StrictDate.DecimalValue` | script.js:16-19 | `parseInt` of an n-digit string is below 10^n |
| `StrictDate.YearField` | script.js:16-17 | the year field of a well-shaped string is at most 9999, so the `year > 9999` test never fires |
| `StrictDate.MonthField` | script.js:16-18 | the month field is at most 99 |
| `StrictDate.DayField` | script.js:16-19 | the day field is at most 99 |
| `StrictDate.FieldDigits` | script.js:16-19 | the three parsed fields are the decimal values of their digit positions |
| `StrictDate.YearLength` | script.js:25 | a year of the `Date` calendar has 366 days exactly when divisible by 4, except by 100 unless by 400, and 365 otherwise |
| `StrictDate.DateFromFields` | script.js:25-30 | the date `new Date(y, m - 1, d)` reads back is a real date with the same day number as the fields |
| `StrictDate.DayNumberWithinYear` | script.js:25-30 | a real date's day number lies within its year's span |
| `StrictDate.DaysBeforeYearMonotone` | script.js:25-30 | later years start no earlier |
| `StrictDate.MonthsInOrder` | script.js:25-30 | a later month of a year starts after every day of an earlier one |
| `StrictDate.DayNumberInjective` | script.js:25-30 | two real dates with the same day number are equal, so the round trip's answer is unique |
| `StrictDate.RoundTripKeepsExactlyRealDates` | script.js:25-30 | the fields read back unchanged exactly when 1 <= day <= days-in-month |
| `StrictDate.LeapDayAccepted` | script.js:11-31 | 2024-02-29 is accepted |
| `StrictDate.LeapDayRefusedInCommonYear` | script.js:11-31 | 2025-02-29 is refused |
| `StrictDate.DayRangeExamples` | script.js:11-31 | 2025-04-07 is accepted; 2025-04-31 and 2025-04-00 are refused |
| `StrictDate.RangeAndShapeExamples` | script.js:11-31 | 0999-01-01, 2025-13-01, 2025-4-07 and a string with a trailing space are refused |
| `Flights.PricedFlights` | script.js:173-175 | the filter keeps every priced flight of the response and nothing else |
| `Flights.SelectFlightIsFirstPriced` | script.js:173-178 | the selected flight is the first priced one; there is none exactly when no flight is priced |
| `Flights.AdultFare` | script.js:107-108 | `find` yields the total fare of the first `ADL` entry, and nothing exactly when there is no `ADL` entry |
| `Flights.LookUpFare` | script.js:93-108 | no price record exactly when `Prices` is empty; no passenger fares (the not-found path) exactly when the first record lacks them; no adult fare (the throw) exactly when they have no `ADL` entry; otherwise the fare carried is the first `ADL` entry's total fare |
| `Tracker.CyclePreservesInv` | script.js:59-153 | every cycle keeps the remembered fare equal to the remembered flight's adult fare, 0 without a flight, and no flight after a miss |
| `Tracker.FareWatcher.constructor` | script.js:59-61 | start-up state: fare 0, no flight, flag clear, nothing raised; the invariant holds |
| `Tracker.FareWatcher.Toast` | script.js:73-90 | raising a notification appends it to the log and touches no variable |
| `Tracker.FareWatcher.NotFoundHandler` | script.js:63-71 | the new state is `NotFoundStep` of the old one |
| `Tracker.FareWatcher.InfoTextMaker` | script.js:121-133 | returns the old and new fare with the first leg's date and time, or runs the not-found path and returns nothing when there is no leg |
| `Tracker.FareWatcher.IncreaseHandler` | script.js:135-143 | the new state is `ChangeStep` of the old one with an Up report |
| `Tracker.FareWatcher.DecreaseHandler` | script.js:145-153 | the new state is `ChangeStep` of the old one with a Down report |
| `Tracker.FareWatcher.FlightHandler` | script.js:92-119 | the new state and the thrown flag are `FlightStep` of the old state |
| `Tracker.FareWatcher.CheckData` | script.js:172-187 | the new state is `CycleStep` of the old one, and the invariant is kept |
| `TrackerProperties.NotFoundIsEdgeTriggered` | script.js:63-71 | "Not Found" is raised exactly when the flag was clear; afterwards the flag is set, the fare is 0 and there is no flight |
| `TrackerProperties.NotFoundIdempotent` | script.js:63-71 | a second miss in a row changes nothing |
| `TrackerProperties.EqualFareIsSilent` | script.js:105-112 | an equal adult fare raises nothing and only clears the flag |
| `TrackerProperties.FareChangeClassified` | script.js:114-118 | a different fare raises exactly one notification, Up when strictly greater and Down otherwise, with the old fare and the new one; the fare and flight are remembered and the flag is clear |
| `TrackerProperties.MissingLegReportsNotFound` | script.js:122-123 | a changed fare on a flight without a first leg raises "Not Found" and no price report, yet the fare and flight are remembered and the flag ends clear |
| `TrackerProperties.MissingAdultFareThrows` | script.js:105-108 | without an `ADL` entry the handler throws after clearing the flag and leaves fare and flight alone |
| `TrackerProperties.FirstPositiveFareReportedUp` | script.js:59-61 | from start-up, a first positive fare is reported as Up from 0 |
| `TrackerProperties.CycleHandlesFirstPricedFlight` | script.js:173-182 | a cycle handles the first priced flight, never one without a price record, and takes the not-found path when no flight is priced |
| `TrackerProperties.CycleNotifiesAtMostOnce` | script.js:172-187 | a cycle keeps the earlier notifications and appends at most one |
| `TrackerProperties.FetchFailureLeavesStateAlone` | script.js:184-186 | a failed request raises "Error in Fetch" and changes no variable |
| `TrackerProperties.RunPreservesInv` | script.js:59-153 | the invariant holds after any number of cycles |
| `TrackerProperties.RepeatedMissesNotifyOnce` | script.js:63-71 | any run of cycles with no priced flight raises "Not Found" at most once |
| `TrackerProperties.SteadyCycleIdempotent` | script.js:110-112 | repeating a cycle on the same priced flight changes nothing |
| `TrackerProperties.SteadyFareIsSilent` | script.js:110-112 | once the fare is remembered, any number of further cycles at that fare raise nothing and change nothing |
| `TrackerProperties.ThreeCycleExample` | script.js:110-118 | fares 500, 500, 650 from start-up raise Up 0 to 500, then nothing, then Up 500 to 650 |

## Left out

- The HTTP request (script.js:157-171): the fixed route, passenger mix and `axios` call are a network client. A cycle takes the endpoint's response as input. A failed request, or a response without a `Flights` array, is the `FetchFailed` response.
- The OS notification and console logging (script.js:73-90): `Toast` appends to the `notices` log. A failing notification command is caught in the source and changes nothing. The log records every notification that was attempted.
- The interactive prompts and the polling interval (script.js:33-57): the date validator is modelled, but not the prompt that uses it. The interval handling is left out too.
- The `setTimeout` rescheduling (script.js:188-190): one cycle is modelled at a time. `Tracker.Run` chains cycles for the lemmas.
- Display formatting (script.js:127-132): fares stay integers. A notification carries the old and new fare, the leg's date string and its raw departure time. The `/ 10` scaling and the locale formatting of fares and times are not modelled.
- The "Not Found" notification's content, the watched date, is not carried by the `NotFound` notice.
- StrictDate.DateFromFields: models the calendar arithmetic of `Date` and not local time zones. It assumes that building a date at local midnight and reading it back in local time keeps the calendar day.
- Flights.Flight: an absent `Prices` field is the empty list. They differ only when `flightHandler` is called on a flight with no `Prices` field, where the source would throw. A cycle never does that.
- Flights.Flight: `Segments` and each segment's `Legs` are always lists. A response with those fields missing, which would make `infoTextMaker` throw, is not modelled.
- Flights.PassengerFare: `TotalFare` is an integer. JavaScript number semantics, such as non-numeric fares or floating point, are not modelled.
- Flights.PricedFlights: its contract states membership in both directions but not the order of the kept flights. Order is stated where it matters, for the first priced flight, by `Flights.SelectFlightIsFirstPriced`.
