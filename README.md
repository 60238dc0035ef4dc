# Hours-of-Service log planner, modelled in Dafny

The trucking back end plans the duty-status logs of one trip.  Given a start
time, the total driving time, the trip distance and the hours already used in
the driver's 70-hour/8-day cycle, the `HOSCalculator` walks the trip forward
in time.  It writes a pickup hour, then driving segments of at most one hour,
and finally a dropoff hour.  Along the way it enforces four rules:

- the 11-hour daily driving cap and the 14-hour daily on-duty cap trigger a
  10-hour off-duty reset;
- eight hours of driving trigger a 30-minute break;
- the 70-hour cycle cap limits each segment;
- every 1000 miles a 30-minute fuel stop is taken.

It returns a list of day lists of duty-status entries (OFF, ON, DR), the list
of stops, and the final cycle total.  The log writer fills gaps of more than
0.001 h with off-duty time when the current day list is non-empty.  When an entry ends on a later date than the day's
last entry, the writer closes the day with an off-duty filler up to midnight.

The project has eight files:

- `wrappers.dfy` holds `Option`.
- `hos_rules.dfy` (module `HosRules`) holds the limits, the data and one
  reference function per step of the calculator.  Each function is a map from
  the calculator's attributes (a `State` value) to their new values.
- `hos_calculator.dfy` (module `HosCalculator`) holds the class
  `HOSCalculator`.  Its fields are the object's attributes and its methods
  update them in place.  Each method is proved to leave the object exactly in
  the state the matching `HosRules` function computes.
  - `CalculateLogs` is the `while` loop of the source, with its `continue`.
    Its invariant ties the fields and locals to the reference loop `Run`.
- `hos_log_facts.dfy`, `hos_enforce_facts.dfy`, `hos_trip_facts.dfy`,
  `hos_contiguity_facts.dfy` and `hos_progress_facts.dfy` prove what the
  steps do.
  - The log writer: empty entries, gap filling, day rollover.
  - The rules: the reset, the break, a segment, a fuel stop.
  - An invariant of the trip:
    - the current day list's driving and on-duty time match the day
      accumulators;
    - no day list holds more than 11 h of driving;
    - every logged entry has positive length;
    - the first day list is empty;
    - the cycle total is the initial total plus the logged on-duty time.
  - Contiguity within each day list: every entry starts where the one
    before it ends, so the entries of a day are ordered and never overlap.
  - The two termination results described next.

**Time.** Times are exact `real` hours since an epoch that falls on a
midnight.  The date of `t` is `Floor(t / 24)` and its next midnight is
`(Floor(t / 24) + 1) * 24`.

**Termination.** Python's main loop has no bound.  The model runs it for at
most `maxIterations` iterations and returns `None` when driving is still left
after that.  Two theorems say when that bound matters:

- `TripWithHeadroomCompletes`: take a trip with `total > 0` and
  `distance >= 0` that leaves room in the cycle:
  `initial + 1 + total + distance / 2000 < 70`.
  - It finishes within `Floor(2 * total) + 1` iterations.
  - Any larger bound gives the same result.
  - The proof keeps every day accumulator on a half-hour grid, so every
    segment but the last lasts at least half an hour.
- `ExhaustedCycleNeverCompletes`: a trip that starts with
  `initial >= 68.999` and has more than 0.001 h to drive never finishes.
  - The result is `None` for every bound.
  - After the pickup hour the cycle room is at most 0.001 h.  From then on,
    an iteration changes nothing: the reset that the retry path calls ignores
    the cycle cap.

## Model

| member | source | states |
|---|---|---|
| HosCalculator.HOSCalculator.constructor | backend/trips/hos_calculator.py:19-36 | The new object has one empty day list and no stops. The clock and the last activity end are at the start time, the cycle total is the given one, and all accumulators are cleared. The zero-length initial entry is dropped. |
| HosRules.Init | backend/trips/hos_calculator.py:19-36 | The fresh state has exactly one day list, which is empty, and no stops. The clock and the last activity end are at the start, the cycle total is the initial one, and the day and break accumulators are zero or cleared. |
| HosCalculator.HOSCalculator.AddLogEntryInternal | backend/trips/hos_calculator.py:39-49 | The object is left in the state `AddEntryInternal` gives: an entry of positive length is appended to the last day list and sets the last activity end. |
| HosLogFacts.AddEntryInternalAppends | backend/trips/hos_calculator.py:39-49 | An entry with start < end is appended to the current day list only. The log grows by exactly that entry. The last activity end becomes its end. The clock, cycle, stops and accumulators are unchanged. |
| HosLogFacts.EmptyEntryIgnored | backend/trips/hos_calculator.py:39-54 | An entry with start >= end leaves every attribute unchanged, through either log-adding method. |
| HosCalculator.HOSCalculator.FillGapBefore | backend/trips/hos_calculator.py:61-64 | The object is left in the state `FillGap` gives. |
| HosLogFacts.GapFilling | backend/trips/hos_calculator.py:61-64 | When the current day is non-empty and the gap exceeds 0.001 h, the only change is an OFF entry from the last activity end to the new start, whose description carries the gap; the last activity end moves to the new start. Otherwise nothing changes. |
| HosCalculator.HOSCalculator.OpenDay | backend/trips/hos_calculator.py:85-86 | An empty day list is appended and the old last list is closed unchanged. |
| HosCalculator.HOSCalculator.PrepareDayFor | backend/trips/hos_calculator.py:67-86 | The object is left in the state `PrepareDay` gives. |
| HosLogFacts.CloseDayEffect | backend/trips/hos_calculator.py:67-81 | Closing a day appends the off-duty filler from the day's last end to the next midnight, which has positive length and ends on the next date. It opens an empty list and clears the day and break accumulators. The last activity end becomes the clock. The clock, cycle and stops are kept. |
| HosLogFacts.PrepareDayEffect | backend/trips/hos_calculator.py:67-86 | On a rollover, the closed days gain the old day with its filler, then an empty list. Otherwise an empty current day gets a fresh list after it and a non-empty one is left alone. In the second case the log is unchanged. |
| HosCalculator.HOSCalculator.AddLogEntry | backend/trips/hos_calculator.py:52-88 | The object is left in the state `AddEntry` gives. |
| HosLogFacts.DayRollover | backend/trips/hos_calculator.py:67-88 | After gap filling, an entry ending on a later date than the day's last entry closes that day with a filler to the next midnight. The entry then lands alone in a new day list, preceded by an empty one, and the accumulators are cleared. Without a rollover, the accumulators are kept and the entry joins the current list, or a fresh one when that list is empty. |
| HosLogFacts.AddEntryLog | backend/trips/hos_calculator.py:52-88 | The log after an add is the old log followed by the entries written: the optional gap filler, the optional midnight filler and the entry itself. |
| HosLogFacts.WrittenPositive | backend/trips/hos_calculator.py:52-88 | Every entry an add writes has start < end. |
| HosLogFacts.AddEntryEffect | backend/trips/hos_calculator.py:52-88 | After an add, the entry is the last of the current day and the last activity end is its end. The log only grows, by entries of positive length. The clock, cycle and stops are kept, and the day accumulators are either kept or all cleared. |
| HosLogFacts.AddWithoutGap | backend/trips/hos_calculator.py:61-88 | An add with no gap due writes the entry alone, or the midnight filler and the entry on a rollover. The resulting day lists are given exactly. |
| HosLogFacts.AddEntryFrame | backend/trips/hos_calculator.py:52-88 | Adding an entry never changes the clock, the cycle total or the stops. |
| HosTripFacts.AddAtClock | backend/trips/hos_calculator.py:52-88 | For an add at the current clock under the trip invariant, no gap is filled. Driving and on-duty totals grow by the entry's own time, all entries stay positive, each closed day keeps at most 11 h of driving, and the first day list stays empty. |
| HosCalculator.HOSCalculator.EnforceTenHourReset | backend/trips/hos_calculator.py:91-109 | The object is left in the state `EnforceReset` gives. |
| HosEnforceFacts.ResetRule | backend/trips/hos_calculator.py:91-109 | The reset fires exactly when day driving >= 11 or day on-duty >= 14. Then it logs a 10-hour OFF entry at the old clock, records a '10-Hr Off Duty' stop there and moves the clock on by 10 h. It clears the day and break accumulators, keeps the cycle total and leaves an empty current day list. Afterwards no reset is due. |
| HosTripFacts.ResetKeeps | backend/trips/hos_calculator.py:91-109 | The reset keeps the trip's log invariant. It adds no driving or on-duty time, keeps the cycle total and fuel-stop count, and leaves no reset due. |
| HosCalculator.HOSCalculator.EnforceThirtyMinuteBreak | backend/trips/hos_calculator.py:112-123 | The object is left in the state `EnforceBreak` gives. |
| HosEnforceFacts.BreakRule | backend/trips/hos_calculator.py:112-123 | The break fires exactly when driving since the break is >= 8 and either no break was taken or 8 h have passed since the last one. Then it logs a 30-minute OFF entry and a 'Mandatory 30-Min Break' stop at the old clock. It moves the clock on by 0.5 h, sets the last break to the new clock, zeroes driving since the break and keeps the cycle total. |
| HosTripFacts.BreakKeeps | backend/trips/hos_calculator.py:112-123 | The break keeps the log invariant. It adds no driving or on-duty time, keeps the cycle total and fuel-stop count, and does not make a reset due. |
| HosTripFacts.EnforceKeepsTrip | backend/trips/hos_calculator.py:146-148 | The two enforcers, run in turn, keep the trip invariant and leave no reset due. |
| HosRules.AvailableDriving | backend/trips/hos_calculator.py:150-156 | The segment length is at most each of the five ceilings (remaining, 1 h, 11 minus day driving, 14 minus day on-duty, 70 minus cycle) and equals one of them. |
| HosProgressFacts.SegmentLength | backend/trips/hos_calculator.py:150-156 | With the day accumulators on the half-hour grid and below their caps, and cycle room above the driving left, the segment is the whole remainder or a half-hour multiple of at least 0.5 h. |
| HosProgressFacts.SegmentFacts | backend/trips/hos_calculator.py:146-158 | In a trip with headroom, after the enforcers the segment length exceeds 0.001 h, so the retry branch is not taken. The length is at most the driving left, and is the remainder or at least 0.5 h. |
| HosCalculator.HOSCalculator.DriveOneSegment | backend/trips/hos_calculator.py:165-180 | The object and the returned locals are those `DriveSegment` gives. |
| HosEnforceFacts.DriveRule | backend/trips/hos_calculator.py:165-180 | A segment logs one driving entry at the clock. It moves the clock, the cycle total and the since-break driving on by its length, and takes that length off the remainder. It credits its share `length / total * distance` of the miles to both counters, or none when the total is not positive. It records no stop. The day totals grow by the length, counted from zero after a rollover. |
| HosTripFacts.DriveKeeps | backend/trips/hos_calculator.py:165-174 | A segment within the daily driving room keeps the log invariant, so day driving stays <= 11. Driving, on-duty and cycle totals grow by exactly its length, and the stops are unchanged. |
| HosTripFacts.DriveKeepsTrip | backend/trips/hos_calculator.py:165-180 | A segment within the remainder and the daily room keeps the trip invariant. |
| HosCalculator.HOSCalculator.FuelStopIfDue | backend/trips/hos_calculator.py:182-190 | The object and the returned miles counter are those `FuelCheck` gives. |
| HosEnforceFacts.FuelRule | backend/trips/hos_calculator.py:182-190 | The fuel stop fires exactly when 1000 miles have been driven since the last one. It logs a 30-minute ON entry and a 'Fuel Stop' stop at the clock, and moves the clock and the cycle total on by 0.5 h. It adds 0.5 h to day on-duty and resets the miles since fuelling to 0. The remainder and the trip miles are kept. |
| HosTripFacts.FuelKeeps | backend/trips/hos_calculator.py:183-189 | A fuel stop keeps the log invariant. It adds 0.5 h to on-duty time and to the cycle total, and exactly one fuel stop. |
| HosTripFacts.FuelKeepsTrip | backend/trips/hos_calculator.py:182-190 | The fuel check keeps the trip invariant and the driving left. |
| HosCalculator.HOSCalculator.RecordPickupActivity | backend/trips/hos_calculator.py:135-141 | The object is left in the state `RecordPickup` gives. |
| HosTripFacts.PickupBookend | backend/trips/hos_calculator.py:135-141 | On a fresh calculator the pickup hour opens a second day list and the first stays empty. It logs a 'Pickup' stop at the start. The clock and the cycle total move on by 1 h, which is also the day's on-duty total, and nothing has been driven. |
| HosTripFacts.PickupStartsRun | backend/trips/hos_calculator.py:130-141 | The pickup establishes the trip invariant that the main loop keeps. |
| HosTripFacts.StepKeeps | backend/trips/hos_calculator.py:145-190 | One iteration of the main loop keeps the trip invariant, whichever branch it takes. |
| HosTripFacts.RunKeeps | backend/trips/hos_calculator.py:145-190 | Any number of iterations keeps the trip invariant. |
| HosCalculator.HOSCalculator.RecordDropoffActivity | backend/trips/hos_calculator.py:192-198 | The object is left in the state `RecordDropoff` gives. |
| HosTripFacts.DropoffKeeps | backend/trips/hos_calculator.py:192-198 | The dropoff keeps the log invariant. It adds 1 h of on-duty time and cycle, appends a 'Dropoff' stop at the clock and adds no fuel stop. |
| HosTripFacts.DayListsOfInv | backend/trips/hos_calculator.py:33-36 | Under the invariant there are at least two day lists and the first is empty. Every logged entry has positive length and no day list holds more than 11 h of driving. |
| HosCalculator.HOSCalculator.CalculateLogs | backend/trips/hos_calculator.py:130-204 | The loop leaves the object and result as `HosRules.CalculateLogs` computes them: pickup, at most `maxIterations` iterations, then the dropoff and the dictionary if the driving is done. |
| HosCalculator.CalculateTripLogs | backend/trips/hos_calculator.py:206-213 | The wrapper's result is that of a fresh calculator's `calculate_logs`. |
| HosTripFacts.CompletedTrip | backend/trips/hos_calculator.py:130-213 | A completed trip's logs have an empty first day list. Its stops start with the pickup at the start time and end with a dropoff. Every entry is positive and each day list holds at most 11 h of driving. The hours driven are within 0.001 of the total and, for a non-negative total, no more than it. The final cycle is the initial total plus the logged on-duty time, and also the initial total + 2 + driven + 0.5 per fuel stop. |
| HosTripFacts.NoDrivingTrip | backend/trips/hos_calculator.py:130-213 | A trip with at most 0.001 h to drive completes for every bound. Its stops are exactly the pickup at the start time and the dropoff one hour later, its logs hold no driving, and the final cycle is the initial total + 2. |
| HosProgressFacts.EnforcedOnGrid | backend/trips/hos_calculator.py:146-148 | The enforcers keep the day accumulators on the half-hour grid, keep the cycle total and fuel stops, and leave no reset due. |
| HosProgressFacts.DriveOnGrid | backend/trips/hos_calculator.py:165-174 | A half-hour-multiple segment keeps the day accumulators on the half-hour grid. |
| HosProgressFacts.FuelOnGrid | backend/trips/hos_calculator.py:182-190 | A fuel stop keeps the day accumulators on the half-hour grid. |
| HosProgressFacts.CycleRoom | backend/trips/hos_calculator.py:155 | In a trip with headroom, the cycle room stays above the driving left. |
| HosProgressFacts.MilesAfterSegment | backend/trips/hos_calculator.py:176-180 | After a segment, the trip miles remain the driven share of the distance. The fuel stops taken plus the miles since fuelling stay covered by the trip miles. |
| HosProgressFacts.SegmentMileage | backend/trips/hos_calculator.py:165-180 | A segment lowers the remainder by its length and keeps the miles accounting above. |
| HosProgressFacts.SegmentProgress | backend/trips/hos_calculator.py:165-180 | A valid segment keeps the progress invariant, and either ends the driving or lowers the remainder by at least 0.5 h. |
| HosProgressFacts.DriveProgress | backend/trips/hos_calculator.py:146-180 | In a trip with headroom, each iteration drives more than 0.001 h. It keeps the progress invariant and finishes or lowers the remainder by at least 0.5 h. |
| HosProgressFacts.FuelProgress | backend/trips/hos_calculator.py:182-190 | The fuel check keeps the progress invariant and the remainder. |
| HosProgressFacts.StepProgress | backend/trips/hos_calculator.py:145-190 | An iteration of a trip with headroom keeps the progress invariant. It finishes the driving or lowers the remainder by at least 0.5 h. |
| HosProgressFacts.RunFinishes | backend/trips/hos_calculator.py:145-190 | With headroom, 2 × remainder iterations suffice to bring the remainder to <= 0.001. |
| HosProgressFacts.RunSplit | backend/trips/hos_calculator.py:145-190 | Running n + k iterations is running n and then k more. |
| HosProgressFacts.PickupStartsProgress | backend/trips/hos_calculator.py:135-141 | For a trip with headroom, the pickup establishes the progress invariant. |
| HosProgressFacts.TripWithHeadroomCompletes | backend/trips/hos_calculator.py:130-213 | The wrapper returns logs for every trip with headroom once the bound is at least `Floor(2 * total) + 1`. Any larger bound gives the same logs. |
| HosProgressFacts.CycleExhaustedStalls | backend/trips/hos_calculator.py:145-161 | With no reset or break due and cycle room <= 0.001, an iteration changes nothing. Hence so do any number of them. |
| HosProgressFacts.ExhaustedCycleNeverCompletes | backend/trips/hos_calculator.py:130-213 | A trip starting at >= 68.999 cycle hours with more than 0.001 h to drive never finishes, for any bound. |
| HosRules.DateBounds | backend/trips/hos_calculator.py:67 | A time lies within the 24 hours of its date. |
| HosRules.NextMidnightFacts | backend/trips/hos_calculator.py:70 | The next midnight lies after the time, at most 24 h later, and starts the following date. |
| HosContiguityFacts.AddAtClockChains | backend/trips/hos_calculator.py:52-88 | An add at the clock keeps every day list a chain, each entry starting where the previous one ends, and leaves its entry last in the current list. |
| HosContiguityFacts.ResetContiguous | backend/trips/hos_calculator.py:91-109 | The reset keeps every day list a chain. |
| HosContiguityFacts.BreakContiguous | backend/trips/hos_calculator.py:112-123 | The break keeps every day list a chain, and the current list ends at the new clock. |
| HosContiguityFacts.DriveContiguous | backend/trips/hos_calculator.py:165-174 | A driving segment keeps every day list a chain, and the current list ends at the new clock. |
| HosContiguityFacts.FuelContiguous | backend/trips/hos_calculator.py:183-189 | A fuel stop keeps every day list a chain, and the current list ends at the new clock. |
| HosContiguityFacts.DropoffContiguous | backend/trips/hos_calculator.py:192-198 | The dropoff keeps every day list a chain, and the current list ends at the new clock. |
| HosContiguityFacts.StepContiguous | backend/trips/hos_calculator.py:146-190 | One iteration of the main loop, either branch, keeps every day list a chain. |
| HosContiguityFacts.RunContiguous | backend/trips/hos_calculator.py:145-190 | Any number of iterations keeps every day list a chain. |
| HosContiguityFacts.CompletedTripChains | backend/trips/hos_calculator.py:130-213 | Every day list a completed trip returns is a chain of entries of positive length. |
| HosContiguityFacts.CompletedTripContiguous | backend/trips/hos_calculator.py:130-213 | In every day list of a completed trip, each entry starts where the previous one ends, and entries are ordered with no overlaps. |
| HosRules.Date | backend/trips/hos_calculator.py:67 | Reference for `.date()`: the day number `Floor(t / 24)`. `DateBounds` states its meaning. |
| HosRules.NextMidnight | backend/trips/hos_calculator.py:70 | Reference for the midnight after a time. `NextMidnightFacts` states its meaning. |
| HosRules.AddEntryInternal | backend/trips/hos_calculator.py:39-49 | Reference for `_add_log_entry_internal`. `AddEntryInternalAppends` and `EmptyEntryIgnored` state what it does. |
| HosRules.GapDue | backend/trips/hos_calculator.py:61-63 | Reference for the gap test: a non-empty current day list and a gap of more than 0.001 h. `GapFilling` states both outcomes. |
| HosRules.FillGap | backend/trips/hos_calculator.py:61-64 | Reference for the gap filler. `GapFilling` states what it does. |
| HosRules.RolloverDue | backend/trips/hos_calculator.py:67 | Reference for the rollover test: the entry ends on a later date than the current day's last entry. `PrepareDayEffect` and `DayRollover` state both outcomes. |
| HosRules.State.OpenNewDay | backend/trips/hos_calculator.py:75-86 | Reference for appending a new day list: the current list is closed and an empty one opened. `CloseDayEffect`, `PrepareDayEffect` and `ResetRule` state its effect. |
| HosRules.CloseDay | backend/trips/hos_calculator.py:69-81 | Reference for closing a day on a rollover. `CloseDayEffect` states what it does. |
| HosRules.PrepareDay | backend/trips/hos_calculator.py:67-86 | Reference for the rollover and empty-list handling. `PrepareDayEffect` states what it does. |
| HosRules.AddEntry | backend/trips/hos_calculator.py:52-88 | Reference for `_add_log_entry`. `AddEntryLog`, `AddEntryEffect`, `DayRollover` and `AddWithoutGap` state what it does. |
| HosRules.ResetDue | backend/trips/hos_calculator.py:92-93 | Reference for the reset test: 11 h of driving or 14 h on duty in the current day. `ResetRule` states both outcomes. |
| HosRules.EnforceReset | backend/trips/hos_calculator.py:91-109 | Reference for `_enforce_10_hour_off_duty_reset`. `ResetRule` states what it does. |
| HosRules.BreakDue | backend/trips/hos_calculator.py:113-114 | Reference for the break test: 8 h of driving since the last break, and no break taken or the last one at least 8 h ago. `BreakRule` states both outcomes. |
| HosRules.EnforceBreak | backend/trips/hos_calculator.py:112-123 | Reference for `_enforce_30_minute_break`. `BreakRule` states what it does. |
| HosRules.RecordPickup | backend/trips/hos_calculator.py:135-141 | Reference for the pickup bookend. `PickupBookend` states what it does. |
| HosRules.DriveState | backend/trips/hos_calculator.py:165-174 | Reference for a segment's effect on the object. `DriveKeeps` and `DriveRule` state what it does. |
| HosRules.SegmentMiles | backend/trips/hos_calculator.py:176-177 | Reference for a segment's miles. `DriveRule` states them as the segment's share of the distance. |
| HosRules.DriveSegment | backend/trips/hos_calculator.py:165-180 | Reference for a whole segment with its locals. `DriveRule` states what it does. |
| HosRules.FuelState | backend/trips/hos_calculator.py:183-189 | Reference for a fuel stop's effect on the object. `FuelKeeps` and `FuelRule` state what it does. |
| HosRules.FuelCheck | backend/trips/hos_calculator.py:182-190 | Reference for the fuel test after a segment. `FuelRule` states what it does. |
| HosRules.Step | backend/trips/hos_calculator.py:146-190 | Reference for one loop iteration, retry branch included. `StepKeeps`, `StepContiguous`, `StepProgress` and `CycleExhaustedStalls` state what it does. |
| HosRules.Run | backend/trips/hos_calculator.py:145 | Reference for the loop, cut off after `maxIterations` iterations. `RunKeeps`, `RunFinishes`, `RunSplit` and `CycleExhaustedStalls` state what it does. |
| HosRules.RecordDropoff | backend/trips/hos_calculator.py:192-198 | Reference for the dropoff bookend. `DropoffKeeps` states what it does. |
| HosRules.CalculateLogs | backend/trips/hos_calculator.py:130-204 | Reference for `calculate_logs`. `CompletedTrip` and `CompletedTripContiguous` state its result. |
| HosRules.CalculateTripLogs | backend/trips/hos_calculator.py:206-213 | Reference for `calculate_trip_logs`. `CompletedTrip`, `CompletedTripContiguous`, `TripWithHeadroomCompletes` and `ExhaustedCycleNeverCompletes` state its result. |

## Left out

- **Serialisation:** ISO-8601 timestamps (`isoformat`/`fromisoformat`) are not modelled. Entries store the time as a number and the rollover reads the last entry's end directly.
- **Descriptions:** the descriptions become a datatype. The two that embed a number keep it exact instead of formatting it with two decimals.
- **Rounding:** binary floating point and `timedelta` rounding are not modelled. Times and hours are exact reals and the 0.001 comparisons are taken literally.
- **Fuel stub:** `_handle_fuel_stop` (hos_calculator.py:126-127) is an empty stub that is never called.
- **Unreachable branches:**
  - The guards at lines 57-58 and 83-84 test for an empty `daily_logs`, which the constructor rules out.
  - The `else: break` at lines 162-163 cannot run under the loop guard.
  - Once the constructor has run, the model keeps `daily_logs` as the closed lists plus the last one, so those branches have no counterpart.
- HosCalculator.HOSCalculator.CalculateLogs: runs at most `maxIterations` iterations, because the source loop does not always terminate. A run cut short returns `None` and records no dropoff. `TripWithHeadroomCompletes` and `ExhaustedCycleNeverCompletes` state when the bound matters.
- HosCalculator.CalculateTripLogs: takes the same `maxIterations` bound.
- **Other parts of the system:** the Mapbox geocoding and directions calls, the Django views, models and routing, and the React log-sheet display. These are I/O, persistence and presentation; only the two scalars they compute feed the calculator.
- **Sleeper berth:** the 'SB' status is declared but never used, so nothing is proved about it.
- **On-duty cap:** the code declares a 14-hour daily on-duty ceiling (`MAX_ON_DUTY_HOURS_DAILY`, hos_calculator.py:4), which limits each driving segment (line 154). The fuel stop (183-189) and the dropoff (192-198) add on-duty time without checking it, so a day list can exceed 14 on-duty hours. The model follows the code and proves only the 11-hour driving bound per day list.
- **Contiguity across days:** contiguity is proved only within each day list (`CompletedTripContiguous`). After a rollover, the entry starts at its own time, which precedes the midnight the filler ends at.
- HosEnforceFacts.DriveRule: does not bound the segment length. `AvailableDriving`, `SegmentFacts` and `DriveKeeps` state those bounds.
