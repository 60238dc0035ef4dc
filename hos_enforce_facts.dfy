/** Facts about the rule enforcers (the 10-hour off-duty reset and the
    30-minute break) and about the two steps of the main loop that write to
    the log: a driving segment and a fuel stop. */
module HosEnforceFacts {
  import opened Wrappers
  import opened HosRules
  import opened HosLogFacts

  /** The off-duty entry the reset writes. */
  function ResetEntry(s: State): Entry {
    Entry(s.currentTime, s.currentTime + MinOffDutyHoursReset, OffDuty, TenHourReset)
  }

  /** The off-duty entry the break writes. */
  function BreakEntry(s: State): Entry {
    Entry(s.currentTime, s.currentTime + MinutesToHours(MandatoryBreakDurationMins), OffDuty, ThirtyMinuteBreak)
  }

  /** `_enforce_10_hour_off_duty_reset` (hos_calculator.py:91-109) fires exactly
      when day driving has reached 11 h or day on-duty 14 h.  Then it writes a
      10-hour off-duty entry, records a '10-Hr Off Duty' stop at the old
      clock, moves the clock on by 10 h, clears the per-day accumulators and
      the break state, leaves the cycle total alone and closes the day list
      the entry went into.  Afterwards no reset is due. */
  lemma ResetRule(s: State)
    ensures !ResetDue(s) ==> EnforceReset(s) == s
    ensures ResetDue(s) ==>
      var r := EnforceReset(s);
      && r.currentTime == s.currentTime + 10.0
      && r.cycleHoursUsed == s.cycleHoursUsed
      && r.stops == s.stops + [Stop(TenHourOffDuty, s.currentTime, DurationHours(10.0))]
      && ClearedDayAccumulators(r)
      && r.lastActivityEndTime == r.currentTime
      && r.currentDay == []
      && s.closedDays <= r.closedDays
      && r.closedDays != [] && Last(r.closedDays) != [] && Last(Last(r.closedDays)) == ResetEntry(s)
      && AllEntries(r) == AllEntries(s) + Written(s, ResetEntry(s))
    ensures !ResetDue(EnforceReset(s))
  {
    if ResetDue(s) {
      var e := ResetEntry(s);
      var a := AddEntry(s, e);
      AddEntryEffect(s, e);
      var b := a.(stops := a.stops + [Stop(TenHourOffDuty, s.currentTime, DurationHours(MinOffDutyHoursReset))],
                  currentTime := s.currentTime + MinOffDutyHoursReset,
                  currentDayDrivingHours := 0.0,
                  currentDayOnDutyHours := 0.0,
                  drivingHoursSinceLastBreak := 0.0,
                  lastBreakTakenTime := None);
      assert EnforceReset(s) == b.OpenNewDay().(lastActivityEndTime := b.currentTime);
      FlattenSnoc(b.closedDays, b.currentDay);
    }
  }

  /** `_enforce_30_minute_break` (hos_calculator.py:112-123) fires exactly when
      8 h have been driven since the last break and either no break has been
      taken or 8 h have passed since it ended.  Then it writes a 30-minute
      off-duty entry, records a 'Mandatory 30-Min Break' stop at the old
      clock, moves the clock on by 0.5 h, sets the last break to the new
      clock and clears the driving since the break.  The cycle total is kept;
      the day accumulators are kept unless the break entry rolled the day
      over, which clears them. */
  lemma BreakRule(s: State)
    ensures !BreakDue(s) ==> EnforceBreak(s) == s
    ensures BreakDue(s) ==>
      var r := EnforceBreak(s);
      && r.currentTime == s.currentTime + 0.5
      && r.lastBreakTakenTime == Some(r.currentTime)
      && r.drivingHoursSinceLastBreak == 0.0
      && r.cycleHoursUsed == s.cycleHoursUsed
      && r.stops == s.stops + [Stop(MandatoryThirtyMinBreak, s.currentTime, DurationMinutes(30))]
      && r.currentDay != [] && Last(r.currentDay) == BreakEntry(s)
      && r.lastActivityEndTime == r.currentTime
      && s.closedDays <= r.closedDays
      && AllEntries(r) == AllEntries(s) + Written(s, BreakEntry(s))
      && ((r.currentDayDrivingHours == s.currentDayDrivingHours && r.currentDayOnDutyHours == s.currentDayOnDutyHours)
          || (r.currentDayDrivingHours == 0.0 && r.currentDayOnDutyHours == 0.0))
  {
    if BreakDue(s) {
      AddEntryEffect(s, BreakEntry(s));
    }
  }

  /** The driving entry of a segment of `available` hours. */
  function DriveEntry(s: State, available: real): Entry {
    Entry(s.currentTime, s.currentTime + available, Driving, DrivingActivity(available))
  }

  /** The on-duty entry a fuel stop writes. */
  function FuelEntry(s: State): Entry {
    Entry(s.currentTime, s.currentTime + MinutesToHours(FuelStopDurationMins), OnDutyNotDriving, FuelingActivity)
  }

  /** A driving segment (hos_calculator.py:165-180) of positive length logs a
      driving entry at the clock, moves the clock, the cycle total and the
      driving since the break on by its length and takes it off the driving
      left; its miles are its share of the distance.  The day accumulators
      grow by its length from their old values, or from zero when the entry
      rolled the day over (which also clears the break state).  No stop is
      recorded. */
  lemma DriveRule(t: Trip, available: real, totalDrivingHours: real, totalDistanceMiles: real)
    requires available > 0.0
    ensures var d := DriveSegment(t, available, totalDrivingHours, totalDistanceMiles);
      var s := t.calculator; var r := d.calculator;
      && r.currentTime == s.currentTime + available
      && r.cycleHoursUsed == s.cycleHoursUsed + available
      && r.stops == s.stops
      && d.remainingDrivingHours == t.remainingDrivingHours - available
      && (totalDrivingHours > 0.0 ==>
            d.milesDrivenCurrentTrip == t.milesDrivenCurrentTrip + available / totalDrivingHours * totalDistanceMiles)
      && (totalDrivingHours <= 0.0 ==> d.milesDrivenCurrentTrip == t.milesDrivenCurrentTrip)
      && d.milesDrivenSinceLastFuel - t.milesDrivenSinceLastFuel == d.milesDrivenCurrentTrip - t.milesDrivenCurrentTrip
      && r.currentDay != [] && Last(r.currentDay) == DriveEntry(s, available)
      && r.lastActivityEndTime == r.currentTime
      && AllEntries(r) == AllEntries(s) + Written(s, DriveEntry(s, available))
      && ((&& r.currentDayDrivingHours == s.currentDayDrivingHours + available
           && r.currentDayOnDutyHours == s.currentDayOnDutyHours + available
           && r.drivingHoursSinceLastBreak == s.drivingHoursSinceLastBreak + available
           && r.lastBreakTakenTime == s.lastBreakTakenTime)
          || (&& r.currentDayDrivingHours == available
              && r.currentDayOnDutyHours == available
              && r.drivingHoursSinceLastBreak == available
              && r.lastBreakTakenTime == None))
  {
    AddEntryEffect(t.calculator, DriveEntry(t.calculator, available));
  }

  /** The fuel check (hos_calculator.py:182-190) fires exactly when 1000 miles
      have been driven since the last fuel stop.  Then it logs a 30-minute
      on-duty entry at the clock, records a 'Fuel Stop' stop there, moves the
      clock and the cycle total on by 0.5 h, adds 0.5 h to the day's on-duty
      total (counted from zero when the entry rolled the day over) and resets
      the miles since fuelling; the driving left and the trip miles are kept. */
  lemma FuelRule(t: Trip)
    ensures t.milesDrivenSinceLastFuel < FuelStopIntervalMiles ==> FuelCheck(t) == t
    ensures t.milesDrivenSinceLastFuel >= FuelStopIntervalMiles ==>
      var f := FuelCheck(t); var s := t.calculator; var r := f.calculator;
      && f.milesDrivenSinceLastFuel == 0.0
      && f.remainingDrivingHours == t.remainingDrivingHours
      && f.milesDrivenCurrentTrip == t.milesDrivenCurrentTrip
      && r.currentTime == s.currentTime + 0.5
      && r.cycleHoursUsed == s.cycleHoursUsed + 0.5
      && r.stops == s.stops + [Stop(FuelStop, s.currentTime, DurationMinutes(30))]
      && r.currentDay != [] && Last(r.currentDay) == FuelEntry(s)
      && r.lastActivityEndTime == r.currentTime
      && AllEntries(r) == AllEntries(s) + Written(s, FuelEntry(s))
      && (r.currentDayOnDutyHours == s.currentDayOnDutyHours + 0.5 || r.currentDayOnDutyHours == 0.5)
  {
    if t.milesDrivenSinceLastFuel >= FuelStopIntervalMiles {
      AddEntryEffect(t.calculator, FuelEntry(t.calculator));
    }
  }
}
