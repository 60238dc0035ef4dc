/** Reference definitions of the Hours-of-Service log simulator.

    Every operation of the calculator is written here as a function from the
    calculator's state (a `State` value holding the same nine attributes as the
    Python object) to its new state.  The class in hos_calculator.dfy performs
    the same steps by updating fields and is proved to agree with these
    functions; the lemmas of the HosLogFacts, HosEnforceFacts, HosTripFacts,
    HosContiguityFacts and HosProgressFacts modules are stated about them.

    Timestamps are hours since an epoch that falls on a midnight: the calendar
    date of a time `t` is `Floor(t / 24)`. */
module HosRules {
  import opened Wrappers

  // Regulatory limits and durations (hours unless the name says minutes).
  const MaxDrivingHoursDaily: real := 11.0
  const MaxOnDutyHoursDaily: real := 14.0
  const MaxCycleHours8Days: real := 70.0
  const MinOffDutyHoursReset: real := 10.0
  const MandatoryBreakDrivingHoursThreshold: real := 8.0
  const MandatoryBreakDurationMins: nat := 30
  const FuelStopIntervalMiles: real := 1000.0
  const FuelStopDurationMins: nat := 30
  const PickupDropoffDurationHours: real := 1.0

  /** The step ceiling of the main loop (`segment_duration_hours`). */
  const SegmentDurationHours: real := 1.0
  /** The tolerance of the gap test, of the loop guard and of the "nothing drivable" test. */
  const Epsilon: real := 0.001

  function MinutesToHours(minutes: nat): real { minutes as real / 60.0 }

  // ---------------------------------------------------------------- data

  /** The duty statuses; the log stores them as "OFF", "DR", "ON" and "SB". */
  datatype Status = OffDuty | Driving | OnDutyNotDriving | SleeperBerth

  /** The description written beside each log entry.  The two that embed a
      number (formatted with two decimals in the log) keep the exact value. */
  datatype Description =
    | InitialState          // "Initial state before trip activities"
    | ImplicitGap(gapHours: real)
    | EndOfDayBoundary      // "Off-duty at end of day (implicit boundary)"
    | TenHourReset          // "Required 10-hour off-duty reset"
    | ThirtyMinuteBreak     // "Mandatory 30-min break"
    | PickupActivity        // "Pickup"
    | DrivingActivity(hours: real)
    | FuelingActivity       // "Fueling stop"
    | DropoffActivity       // "Dropoff"

  datatype Entry = Entry(start: real, end: real, status: Status, description: Description)

  /** The `type` of a stop: '10-Hr Off Duty', 'Mandatory 30-Min Break',
      'Fuel Stop', 'Pickup', 'Dropoff'. */
  datatype StopKind = TenHourOffDuty | MandatoryThirtyMinBreak | FuelStop | Pickup | Dropoff

  /** A stop records its length either as `duration_hours` or as `duration_minutes`. */
  datatype StopDuration = DurationHours(hours: real) | DurationMinutes(minutes: nat)

  datatype Stop = Stop(kind: StopKind, time: real, duration: StopDuration)

  /** The attributes of one calculator object.  `daily_logs` is never empty
      once the constructor has run, so it is kept as the day lists before the
      last one (`closedDays`) and the last one (`currentDay`, the list
      `daily_logs[-1]` that entries are appended to). */
  datatype State = State(
    currentTime: real,
    cycleHoursUsed: real,
    closedDays: seq<seq<Entry>>,
    currentDay: seq<Entry>,
    stops: seq<Stop>,
    currentDayDrivingHours: real,
    currentDayOnDutyHours: real,
    drivingHoursSinceLastBreak: real,
    lastBreakTakenTime: Option<real>,
    lastActivityEndTime: real)
  {
    /** The `daily_logs` list of lists. */
    function DailyLogs(): seq<seq<Entry>> { closedDays + [currentDay] }

    /** `daily_logs.append([])`: the current day list is closed and an empty one opened. */
    function OpenNewDay(): State { this.(closedDays := closedDays + [currentDay], currentDay := []) }
  }

  /** The local variables of `calculate_logs` beside the calculator state. */
  datatype Trip = Trip(
    calculator: State,
    remainingDrivingHours: real,
    milesDrivenCurrentTrip: real,
    milesDrivenSinceLastFuel: real)

  /** The dictionary `calculate_logs` returns. */
  datatype TripLogs = TripLogs(dailyLogs: seq<seq<Entry>>, stops: seq<Stop>, finalCycleUsedHours: real)

  /** The final calculator state and, when the main loop finished, the result. */
  datatype Outcome = Outcome(calculator: State, result: Option<TripLogs>)

  // ---------------------------------------------------------------- sequences

  function Last<T>(s: seq<T>): T
    requires s != []
  {
    s[|s| - 1]
  }

  // ---------------------------------------------------------------- calendar

  /** The calendar date (day number) of a time. */
  function Date(t: real): int
  {
    (t / 24.0).Floor
  }

  /** Midnight at the start of the day after the date of `t`. */
  function NextMidnight(t: real): real
  {
    (Date(t) + 1) as real * 24.0
  }

  /** A time lies in the 24 hours of its date. */
  lemma DateBounds(t: real)
    ensures Date(t) as real * 24.0 <= t < (Date(t) + 1) as real * 24.0
  {
  }

  /** The next midnight lies after `t`, at most a day later, and starts the
      following date. */
  lemma NextMidnightFacts(t: real)
    ensures t < NextMidnight(t) <= t + 24.0
    ensures Date(NextMidnight(t)) == Date(t) + 1
  {
    DateBounds(t);
    var m := NextMidnight(t);
    assert m / 24.0 == (Date(t) + 1) as real;
  }

  // ---------------------------------------------------------------- log writer

  /** `_add_log_entry_internal` (hos_calculator.py:39-49): a non-empty entry is
      appended to the current day list. */
  function AddEntryInternal(s: State, e: Entry): (r: State)
  {
    if e.start >= e.end then s
    else s.(currentDay := s.currentDay + [e], lastActivityEndTime := e.end)
  }

  /** The gap test of hos_calculator.py:61-63. */
  predicate GapDue(s: State, start: real) {
    s.currentDay != [] && s.lastActivityEndTime < start && start - s.lastActivityEndTime > Epsilon
  }

  /** The off-duty entry that fills the gap before `start`. */
  function GapEntry(s: State, start: real): Entry {
    Entry(s.lastActivityEndTime, start, OffDuty, ImplicitGap(start - s.lastActivityEndTime))
  }

  /** The day-rollover test of hos_calculator.py:67: the new entry ends on a
      later date than the last entry of the current day. */
  predicate RolloverDue(s: State, end: real) {
    s.currentDay != [] && Date(end) > Date(Last(s.currentDay).end)
  }

  /** The end-of-day filler that runs from `t` to the next midnight. */
  function BoundaryEntry(t: real): Entry {
    Entry(t, NextMidnight(t), OffDuty, EndOfDayBoundary)
  }

  /** Closing the current day (hos_calculator.py:69-81): fill to midnight,
      open a new day list and clear the per-day accumulators. */
  function CloseDay(s: State): (r: State)
    requires s.currentDay != []
  {
    var lastEntryEnd := Last(s.currentDay).end;
    var midnightNextDay := NextMidnight(lastEntryEnd);
    var a := if lastEntryEnd < midnightNextDay
             then AddEntryInternal(s, Entry(lastEntryEnd, midnightNextDay, OffDuty, EndOfDayBoundary))
             else s;
    a.OpenNewDay().(currentDayDrivingHours := 0.0,
                    currentDayOnDutyHours := 0.0,
                    drivingHoursSinceLastBreak := 0.0,
                    lastBreakTakenTime := None,
                    lastActivityEndTime := a.currentTime)
  }

  /** The first half of `_add_log_entry` (hos_calculator.py:61-64). */
  function FillGap(s: State, start: real): (r: State)
  {
    if GapDue(s, start) then AddEntryInternal(s, GapEntry(s, start)) else s
  }

  /** The second half of `_add_log_entry` (hos_calculator.py:67-86): close the
      current day when the entry ends on a later date, then open a fresh day
      list if the current one is empty. */
  function PrepareDay(s: State, end: real): (r: State)
  {
    var s2 := if RolloverDue(s, end) then CloseDay(s) else s;
    if s2.currentDay == [] then s2.OpenNewDay() else s2
  }

  /** `_add_log_entry` (hos_calculator.py:52-88). */
  function AddEntry(s: State, e: Entry): (r: State)
  {
    if e.start >= e.end then s
    else AddEntryInternal(PrepareDay(FillGap(s, e.start), e.end), e)
  }

  // ---------------------------------------------------------------- rule enforcer

  /** The condition of `_enforce_10_hour_off_duty_reset` (hos_calculator.py:92-93). */
  predicate ResetDue(s: State) {
    s.currentDayDrivingHours >= MaxDrivingHoursDaily || s.currentDayOnDutyHours >= MaxOnDutyHoursDaily
  }

  /** `_enforce_10_hour_off_duty_reset` (hos_calculator.py:91-109). */
  function EnforceReset(s: State): (r: State)
  {
    if !ResetDue(s) then s
    else
      var offDutyStart := s.currentTime;
      var offDutyEnd := offDutyStart + MinOffDutyHoursReset;
      var a := AddEntry(s, Entry(offDutyStart, offDutyEnd, OffDuty, TenHourReset));
      var b := a.(stops := a.stops + [Stop(TenHourOffDuty, offDutyStart, DurationHours(MinOffDutyHoursReset))],
                  currentTime := offDutyEnd,
                  currentDayDrivingHours := 0.0,
                  currentDayOnDutyHours := 0.0,
                  drivingHoursSinceLastBreak := 0.0,
                  lastBreakTakenTime := None);
      var c := if b.currentDay != [] then b.OpenNewDay() else b;
      c.(lastActivityEndTime := c.currentTime)
  }

  /** The condition of `_enforce_30_minute_break` (hos_calculator.py:113-114). */
  predicate BreakDue(s: State) {
    && s.drivingHoursSinceLastBreak >= MandatoryBreakDrivingHoursThreshold
    && (s.lastBreakTakenTime.None? || s.currentTime - s.lastBreakTakenTime.value >= MandatoryBreakDrivingHoursThreshold)
  }

  /** `_enforce_30_minute_break` (hos_calculator.py:112-123). */
  function EnforceBreak(s: State): (r: State)
  {
    if !BreakDue(s) then s
    else
      var breakStart := s.currentTime;
      var breakEnd := breakStart + MinutesToHours(MandatoryBreakDurationMins);
      var a := AddEntry(s, Entry(breakStart, breakEnd, OffDuty, ThirtyMinuteBreak));
      a.(stops := a.stops + [Stop(MandatoryThirtyMinBreak, breakStart, DurationMinutes(MandatoryBreakDurationMins))],
         currentTime := breakEnd,
         lastBreakTakenTime := Some(breakEnd),
         drivingHoursSinceLastBreak := 0.0)
  }

  // ---------------------------------------------------------------- scheduler

  function Min(a: real, b: real): real { if a <= b then a else b }

  /** The length of the next driving segment (hos_calculator.py:150-156):
      the least of the five ceilings. */
  function AvailableDriving(remaining: real, segment: real, dayDriving: real, dayOnDuty: real, cycleUsed: real): (a: real)
    ensures a <= remaining && a <= segment
    ensures a <= MaxDrivingHoursDaily - dayDriving
    ensures a <= MaxOnDutyHoursDaily - dayOnDuty
    ensures a <= MaxCycleHours8Days - cycleUsed
    ensures || a == remaining || a == segment || a == MaxDrivingHoursDaily - dayDriving
            || a == MaxOnDutyHoursDaily - dayOnDuty || a == MaxCycleHours8Days - cycleUsed
  {
    Min(Min(Min(Min(remaining, segment), MaxDrivingHoursDaily - dayDriving), MaxOnDutyHoursDaily - dayOnDuty),
        MaxCycleHours8Days - cycleUsed)
  }

  /** The bookend at the start of `calculate_logs` (hos_calculator.py:135-141). */
  function RecordPickup(s: State): (r: State)
  {
    var pickupStart := s.currentTime;
    var pickupEnd := pickupStart + PickupDropoffDurationHours;
    var a := AddEntry(s, Entry(pickupStart, pickupEnd, OnDutyNotDriving, PickupActivity));
    a.(currentTime := pickupEnd,
       currentDayOnDutyHours := a.currentDayOnDutyHours + PickupDropoffDurationHours,
       cycleHoursUsed := a.cycleHoursUsed + PickupDropoffDurationHours,
       stops := a.stops + [Stop(Pickup, pickupStart, DurationHours(PickupDropoffDurationHours))])
  }

  /** A driving segment's effect on the calculator (hos_calculator.py:165-174). */
  function DriveState(s: State, available: real): (r: State)
  {
    var drivingStart := s.currentTime;
    var drivingEnd := drivingStart + available;
    var a := AddEntry(s, Entry(drivingStart, drivingEnd, Driving, DrivingActivity(available)));
    a.(currentTime := drivingEnd,
       currentDayDrivingHours := a.currentDayDrivingHours + available,
       currentDayOnDutyHours := a.currentDayOnDutyHours + available,
       cycleHoursUsed := a.cycleHoursUsed + available,
       drivingHoursSinceLastBreak := a.drivingHoursSinceLastBreak + available)
  }

  /** The miles credited to a segment: its share of the driving time times the
      trip distance, or nothing when no driving time was requested
      (hos_calculator.py:176-177). */
  function SegmentMiles(available: real, totalDrivingHours: real, totalDistanceMiles: real): real
  {
    var scaleFactor := if totalDrivingHours > 0.0 then available / totalDrivingHours else 0.0;
    scaleFactor * totalDistanceMiles
  }

  /** One driving segment and its mileage (hos_calculator.py:165-180). */
  function DriveSegment(t: Trip, available: real, totalDrivingHours: real, totalDistanceMiles: real): (r: Trip)
  {
    var milesDrivenSegment := SegmentMiles(available, totalDrivingHours, totalDistanceMiles);
    Trip(DriveState(t.calculator, available), t.remainingDrivingHours - available,
         t.milesDrivenCurrentTrip + milesDrivenSegment,
         t.milesDrivenSinceLastFuel + milesDrivenSegment)
  }

  /** A fuel stop's effect on the calculator (hos_calculator.py:183-189). */
  function FuelState(s: State): (r: State)
  {
    var fuelStart := s.currentTime;
    var fuelEnd := fuelStart + MinutesToHours(FuelStopDurationMins);
    var a := AddEntry(s, Entry(fuelStart, fuelEnd, OnDutyNotDriving, FuelingActivity));
    a.(stops := a.stops + [Stop(FuelStop, fuelStart, DurationMinutes(FuelStopDurationMins))],
       currentTime := fuelEnd,
       currentDayOnDutyHours := a.currentDayOnDutyHours + MinutesToHours(FuelStopDurationMins),
       cycleHoursUsed := a.cycleHoursUsed + MinutesToHours(FuelStopDurationMins))
  }

  /** The fuel check after a segment (hos_calculator.py:182-190). */
  function FuelCheck(t: Trip): (r: Trip)
  {
    if t.milesDrivenSinceLastFuel >= FuelStopIntervalMiles
    then t.(calculator := FuelState(t.calculator), milesDrivenSinceLastFuel := 0.0)
    else t
  }

  /** One iteration of the main loop (hos_calculator.py:146-190).  When nothing
      can be driven the loop retries the reset and starts over (158-161). */
  function Step(t: Trip, totalDrivingHours: real, totalDistanceMiles: real): (r: Trip)
  {
    var s := EnforceBreak(EnforceReset(t.calculator));
    var available := AvailableDriving(t.remainingDrivingHours, SegmentDurationHours,
                                      s.currentDayDrivingHours, s.currentDayOnDutyHours, s.cycleHoursUsed);
    if available <= Epsilon then t.(calculator := EnforceReset(s))
    else FuelCheck(DriveSegment(t.(calculator := s), available, totalDrivingHours, totalDistanceMiles))
  }

  /** The main loop (hos_calculator.py:145), run for at most `maxIterations` iterations. */
  function Run(t: Trip, totalDrivingHours: real, totalDistanceMiles: real, maxIterations: nat): (r: Trip)
    decreases maxIterations
  {
    if t.remainingDrivingHours > Epsilon && maxIterations > 0
    then Run(Step(t, totalDrivingHours, totalDistanceMiles), totalDrivingHours, totalDistanceMiles, maxIterations - 1)
    else t
  }

  /** The bookend at the end of `calculate_logs` (hos_calculator.py:192-198). */
  function RecordDropoff(s: State): (r: State)
  {
    var dropoffStart := s.currentTime;
    var dropoffEnd := dropoffStart + PickupDropoffDurationHours;
    var a := AddEntry(s, Entry(dropoffStart, dropoffEnd, OnDutyNotDriving, DropoffActivity));
    a.(stops := a.stops + [Stop(Dropoff, dropoffStart, DurationHours(PickupDropoffDurationHours))],
       currentTime := dropoffEnd,
       currentDayOnDutyHours := a.currentDayOnDutyHours + PickupDropoffDurationHours,
       cycleHoursUsed := a.cycleHoursUsed + PickupDropoffDurationHours)
  }

  /** `calculate_logs` (hos_calculator.py:130-204).  The result is `None` when
      the loop still had driving left after `maxIterations` iterations. */
  function CalculateLogs(s: State, totalDrivingHours: real, totalDistanceMiles: real, maxIterations: nat): (o: Outcome)
  {
    var t := Run(Trip(RecordPickup(s), totalDrivingHours, 0.0, 0.0), totalDrivingHours, totalDistanceMiles, maxIterations);
    if t.remainingDrivingHours > Epsilon then Outcome(t.calculator, None)
    else
      var f := RecordDropoff(t.calculator);
      Outcome(f, Some(TripLogs(f.DailyLogs(), f.stops, f.cycleHoursUsed)))
  }

  /** The constructor (hos_calculator.py:19-36): one empty day list, and the
      zero-length initial entry is discarded. */
  function Init(startTime: real, initialCycleUsedHours: real): (s: State)
    ensures s.DailyLogs() == [[]] && s.stops == []
    ensures s.currentTime == startTime && s.lastActivityEndTime == startTime
    ensures s.cycleHoursUsed == initialCycleUsedHours
    ensures s.currentDayDrivingHours == 0.0 && s.currentDayOnDutyHours == 0.0
    ensures s.drivingHoursSinceLastBreak == 0.0 && s.lastBreakTakenTime == None
  {
    var s0 := State(startTime, initialCycleUsedHours, [], [], [], 0.0, 0.0, 0.0, None, startTime);
    AddEntryInternal(s0, Entry(startTime, startTime, OffDuty, InitialState))
  }

  /** `calculate_trip_logs` (hos_calculator.py:206-213). */
  function CalculateTripLogs(startTime: real, totalDrivingHours: real, totalDistanceMiles: real,
                             initialCycleUsedHours: real, maxIterations: nat): Option<TripLogs>
  {
    CalculateLogs(Init(startTime, initialCycleUsedHours), totalDrivingHours, totalDistanceMiles, maxIterations).result
  }
}
