/** The calculator object of hos_calculator.py: its fields are the Python
    attributes and its methods update them in place.  Each method is proved to
    leave the object in exactly the state the matching function of `HosRules`
    computes from the state before the call. */
module HosCalculator {
  import opened Wrappers
  import opened HosRules

  class HOSCalculator {
    var currentTime: real
    var cycleHoursUsed: real
    /** `daily_logs[:-1]`: the day lists already closed. */
    var closedDays: seq<seq<Entry>>
    /** `daily_logs[-1]`: the day list new entries are appended to. */
    var currentDay: seq<Entry>
    var stops: seq<Stop>
    var currentDayDrivingHours: real
    var currentDayOnDutyHours: real
    var drivingHoursSinceLastBreak: real
    var lastBreakTakenTime: Option<real>
    var lastActivityEndTime: real

    /** The object's attributes as one value. */
    function Snapshot(): State
      reads this
    {
      State(currentTime, cycleHoursUsed, closedDays, currentDay, stops, currentDayDrivingHours, currentDayOnDutyHours,
            drivingHoursSinceLastBreak, lastBreakTakenTime, lastActivityEndTime)
    }

    /** hos_calculator.py:19-36 */
    constructor (startTime: real, initialCycleUsedHours: real)
      ensures Snapshot() == Init(startTime, initialCycleUsedHours)
    {
      currentTime := startTime;
      cycleHoursUsed := initialCycleUsedHours;
      closedDays := [];
      currentDay := [];
      stops := [];
      currentDayDrivingHours := 0.0;
      currentDayOnDutyHours := 0.0;
      drivingHoursSinceLastBreak := 0.0;
      lastBreakTakenTime := None;
      lastActivityEndTime := startTime;
      new;
      AddLogEntryInternal(currentTime, currentTime, OffDuty, InitialState);
    }

    /** hos_calculator.py:39-49 */
    method AddLogEntryInternal(start: real, end: real, status: Status, description: Description)
      modifies this
      ensures Snapshot() == AddEntryInternal(old(Snapshot()), Entry(start, end, status, description))
    {
      if start >= end {
        return;
      }
      currentDay := currentDay + [Entry(start, end, status, description)];
      lastActivityEndTime := end;
    }

    /** `self.daily_logs.append([])` */
    method OpenDay()
      modifies this
      ensures Snapshot() == old(Snapshot()).OpenNewDay()
    {
      closedDays := closedDays + [currentDay];
      currentDay := [];
    }

    /** hos_calculator.py:61-64: fill a gap before `start` with an off-duty entry. */
    method FillGapBefore(start: real)
      modifies this
      ensures Snapshot() == FillGap(old(Snapshot()), start)
    {
      if currentDay != [] && lastActivityEndTime < start {
        var gapDuration := start - lastActivityEndTime;
        if gapDuration > Epsilon {
          AddLogEntryInternal(lastActivityEndTime, start, OffDuty, ImplicitGap(gapDuration));
        }
      }
    }

    /** hos_calculator.py:67-86: close the day on a date change, then open a
        fresh day list if the current one is empty. */
    method PrepareDayFor(end: real)
      modifies this
      ensures Snapshot() == PrepareDay(old(Snapshot()), end)
    {
      if currentDay != [] && Date(end) > Date(Last(currentDay).end) {
        var lastEntryEndOnPreviousDay := Last(currentDay).end;
        var midnightNextDay := NextMidnight(lastEntryEndOnPreviousDay);
        if lastEntryEndOnPreviousDay < midnightNextDay {
          AddLogEntryInternal(lastEntryEndOnPreviousDay, midnightNextDay, OffDuty, EndOfDayBoundary);
        }
        OpenDay();
        currentDayDrivingHours := 0.0;
        currentDayOnDutyHours := 0.0;
        drivingHoursSinceLastBreak := 0.0;
        lastBreakTakenTime := None;
        lastActivityEndTime := currentTime;
      }
      if currentDay == [] {
        OpenDay();
      }
    }

    /** hos_calculator.py:52-88 */
    method AddLogEntry(start: real, end: real, status: Status, description: Description)
      modifies this
      ensures Snapshot() == AddEntry(old(Snapshot()), Entry(start, end, status, description))
    {
      if start >= end {
        return;
      }
      FillGapBefore(start);
      PrepareDayFor(end);
      AddLogEntryInternal(start, end, status, description);
    }

    /** hos_calculator.py:91-109 */
    method EnforceTenHourReset()
      modifies this
      ensures Snapshot() == EnforceReset(old(Snapshot()))
    {
      if currentDayDrivingHours >= MaxDrivingHoursDaily || currentDayOnDutyHours >= MaxOnDutyHoursDaily {
        ghost var s := Snapshot();
        var offDutyStart := currentTime;
        var offDutyEnd := offDutyStart + MinOffDutyHoursReset;
        AddLogEntry(offDutyStart, offDutyEnd, OffDuty, TenHourReset);
        ghost var a := Snapshot();
        stops := stops + [Stop(TenHourOffDuty, offDutyStart, DurationHours(MinOffDutyHoursReset))];
        currentTime := offDutyEnd;
        currentDayDrivingHours := 0.0;
        currentDayOnDutyHours := 0.0;
        drivingHoursSinceLastBreak := 0.0;
        lastBreakTakenTime := None;
        ghost var b := Snapshot();
        assert b == a.(stops := a.stops + [Stop(TenHourOffDuty, offDutyStart, DurationHours(MinOffDutyHoursReset))],
                       currentTime := offDutyEnd, currentDayDrivingHours := 0.0, currentDayOnDutyHours := 0.0,
                       drivingHoursSinceLastBreak := 0.0, lastBreakTakenTime := None);
        if currentDay != [] {
          OpenDay();
        }
        lastActivityEndTime := currentTime;
      }
    }

    /** hos_calculator.py:112-123 */
    method EnforceThirtyMinuteBreak()
      modifies this
      ensures Snapshot() == EnforceBreak(old(Snapshot()))
    {
      if drivingHoursSinceLastBreak >= MandatoryBreakDrivingHoursThreshold
         && (lastBreakTakenTime.None? || currentTime - lastBreakTakenTime.value >= MandatoryBreakDrivingHoursThreshold)
      {
        var breakStart := currentTime;
        var breakEnd := breakStart + MinutesToHours(MandatoryBreakDurationMins);
        AddLogEntry(breakStart, breakEnd, OffDuty, ThirtyMinuteBreak);
        stops := stops + [Stop(MandatoryThirtyMinBreak, breakStart, DurationMinutes(MandatoryBreakDurationMins))];
        currentTime := breakEnd;
        lastBreakTakenTime := Some(breakEnd);
        drivingHoursSinceLastBreak := 0.0;
      }
    }

    /** The pickup at the start of `calculate_logs` (hos_calculator.py:135-141). */
    method RecordPickupActivity()
      modifies this
      ensures Snapshot() == RecordPickup(old(Snapshot()))
    {
      var pickupStart := currentTime;
      var pickupEnd := pickupStart + PickupDropoffDurationHours;
      AddLogEntry(pickupStart, pickupEnd, OnDutyNotDriving, PickupActivity);
      currentTime := pickupEnd;
      currentDayOnDutyHours := currentDayOnDutyHours + PickupDropoffDurationHours;
      cycleHoursUsed := cycleHoursUsed + PickupDropoffDurationHours;
      stops := stops + [Stop(Pickup, pickupStart, DurationHours(PickupDropoffDurationHours))];
    }

    /** The dropoff at the end of `calculate_logs` (hos_calculator.py:192-198). */
    method RecordDropoffActivity()
      modifies this
      ensures Snapshot() == RecordDropoff(old(Snapshot()))
    {
      var dropoffStart := currentTime;
      var dropoffEnd := dropoffStart + PickupDropoffDurationHours;
      AddLogEntry(dropoffStart, dropoffEnd, OnDutyNotDriving, DropoffActivity);
      stops := stops + [Stop(Dropoff, dropoffStart, DurationHours(PickupDropoffDurationHours))];
      currentTime := dropoffEnd;
      currentDayOnDutyHours := currentDayOnDutyHours + PickupDropoffDurationHours;
      cycleHoursUsed := cycleHoursUsed + PickupDropoffDurationHours;
    }

    /** One driving segment of the main loop (hos_calculator.py:165-180); the
        loop's local mileage counters are passed in and returned. */
    method DriveOneSegment(available: real, remainingDrivingHours: real, milesDrivenCurrentTrip: real,
                           milesDrivenSinceLastFuel: real, totalDrivingHours: real, totalDistanceMiles: real)
      returns (remaining: real, milesTrip: real, milesSinceFuel: real)
      modifies this
      ensures Trip(Snapshot(), remaining, milesTrip, milesSinceFuel)
           == DriveSegment(Trip(old(Snapshot()), remainingDrivingHours, milesDrivenCurrentTrip, milesDrivenSinceLastFuel),
                           available, totalDrivingHours, totalDistanceMiles)
    {
      var drivingStartSegment := currentTime;
      var drivingEndSegment := drivingStartSegment + available;
      AddLogEntry(drivingStartSegment, drivingEndSegment, Driving, DrivingActivity(available));
      currentTime := drivingEndSegment;
      remaining := remainingDrivingHours - available;
      currentDayDrivingHours := currentDayDrivingHours + available;
      currentDayOnDutyHours := currentDayOnDutyHours + available;
      cycleHoursUsed := cycleHoursUsed + available;
      drivingHoursSinceLastBreak := drivingHoursSinceLastBreak + available;

      var scaleFactor := if totalDrivingHours > 0.0 then available / totalDrivingHours else 0.0;
      var milesDrivenSegment := scaleFactor * totalDistanceMiles;
      assert milesDrivenSegment == SegmentMiles(available, totalDrivingHours, totalDistanceMiles);
      milesTrip := milesDrivenCurrentTrip + milesDrivenSegment;
      milesSinceFuel := milesDrivenSinceLastFuel + milesDrivenSegment;
    }

    /** The fuel stop of the main loop (hos_calculator.py:182-190): returns the
        new value of the miles-since-fuel counter. */
    method FuelStopIfDue(remainingDrivingHours: real, milesDrivenCurrentTrip: real, milesDrivenSinceLastFuel: real)
      returns (milesSinceFuel: real)
      modifies this
      ensures Trip(Snapshot(), remainingDrivingHours, milesDrivenCurrentTrip, milesSinceFuel)
           == FuelCheck(Trip(old(Snapshot()), remainingDrivingHours, milesDrivenCurrentTrip, milesDrivenSinceLastFuel))
    {
      milesSinceFuel := milesDrivenSinceLastFuel;
      if milesDrivenSinceLastFuel >= FuelStopIntervalMiles {
        var fuelStart := currentTime;
        var fuelEnd := fuelStart + MinutesToHours(FuelStopDurationMins);
        AddLogEntry(fuelStart, fuelEnd, OnDutyNotDriving, FuelingActivity);
        stops := stops + [Stop(FuelStop, fuelStart, DurationMinutes(FuelStopDurationMins))];
        currentTime := fuelEnd;
        currentDayOnDutyHours := currentDayOnDutyHours + MinutesToHours(FuelStopDurationMins);
        cycleHoursUsed := cycleHoursUsed + MinutesToHours(FuelStopDurationMins);
        milesSinceFuel := 0.0;
      }
    }

    /** hos_calculator.py:130-204.  The loop runs at most `maxIterations`
        times; if driving is still left then, the result is `None` and no
        dropoff is recorded. */
    method CalculateLogs(totalDrivingHours: real, totalDistanceMiles: real, maxIterations: nat)
      returns (result: Option<TripLogs>)
      modifies this
      ensures Outcome(Snapshot(), result)
           == HosRules.CalculateLogs(old(Snapshot()), totalDrivingHours, totalDistanceMiles, maxIterations)
    {
      var remainingDrivingHours := totalDrivingHours;
      var milesDrivenCurrentTrip := 0.0;
      var milesDrivenSinceLastFuel := 0.0;

      RecordPickupActivity();
      ghost var started := Trip(Snapshot(), totalDrivingHours, 0.0, 0.0);
      var segmentDurationHours := SegmentDurationHours;
      var iterations: nat := 0;
      while remainingDrivingHours > Epsilon && iterations < maxIterations
        invariant iterations <= maxIterations
        invariant Run(Trip(Snapshot(), remainingDrivingHours, milesDrivenCurrentTrip, milesDrivenSinceLastFuel),
                      totalDrivingHours, totalDistanceMiles, maxIterations - iterations)
               == Run(started, totalDrivingHours, totalDistanceMiles, maxIterations)
        decreases maxIterations - iterations
      {
        ghost var before := Trip(Snapshot(), remainingDrivingHours, milesDrivenCurrentTrip, milesDrivenSinceLastFuel);
        iterations := iterations + 1;
        EnforceTenHourReset();
        EnforceThirtyMinuteBreak();
        ghost var enforced := Snapshot();
        var available := AvailableDriving(remainingDrivingHours, segmentDurationHours,
                                          currentDayDrivingHours, currentDayOnDutyHours, cycleHoursUsed);
        if available <= Epsilon {
          // The `else: break` of lines 162-163 cannot run: the loop guard holds here.
          EnforceTenHourReset();
          assert Trip(Snapshot(), remainingDrivingHours, milesDrivenCurrentTrip, milesDrivenSinceLastFuel)
              == Step(before, totalDrivingHours, totalDistanceMiles);
          continue;
        }

        remainingDrivingHours, milesDrivenCurrentTrip, milesDrivenSinceLastFuel :=
          DriveOneSegment(available, remainingDrivingHours, milesDrivenCurrentTrip, milesDrivenSinceLastFuel,
                          totalDrivingHours, totalDistanceMiles);
        ghost var driven := Trip(Snapshot(), remainingDrivingHours, milesDrivenCurrentTrip, milesDrivenSinceLastFuel);
        milesDrivenSinceLastFuel := FuelStopIfDue(remainingDrivingHours, milesDrivenCurrentTrip, milesDrivenSinceLastFuel);
        assert Trip(Snapshot(), remainingDrivingHours, milesDrivenCurrentTrip, milesDrivenSinceLastFuel)
            == FuelCheck(driven);
      }

      if remainingDrivingHours > Epsilon {
        result := None;
        return;
      }
      RecordDropoffActivity();
      result := Some(TripLogs(closedDays + [currentDay], stops, cycleHoursUsed));
    }
  }

  /** `calculate_trip_logs` (hos_calculator.py:206-213): a fresh calculator
      computes the logs of one trip. */
  method CalculateTripLogs(startTime: real, totalDrivingHours: real, totalDistanceMiles: real,
                           initialCycleUsedHours: real, maxIterations: nat)
    returns (result: Option<TripLogs>)
    ensures result == HosRules.CalculateTripLogs(startTime, totalDrivingHours, totalDistanceMiles,
                                                initialCycleUsedHours, maxIterations)
  {
    var calculator := new HOSCalculator(startTime, initialCycleUsedHours);
    result := calculator.CalculateLogs(totalDrivingHours, totalDistanceMiles, maxIterations);
  }
}
