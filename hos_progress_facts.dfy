/** When the main loop of `calculate_logs` finishes, and when it never does.

    With enough headroom on the 70-hour cycle the loop ends after at most
    twice as many iterations as hours of driving were asked for: every day
    accumulator stays a whole number of half hours, so each segment but the
    last is at least half an hour long, and the cycle ceiling never binds.
    Once the cycle is used up, on the other hand, an iteration changes
    nothing at all, so the loop runs forever. */
module HosProgressFacts {
  import opened Wrappers
  import opened HosRules
  import opened HosLogFacts
  import opened HosEnforceFacts
  import opened HosTripFacts

  // ---------------------------------------------------------------- half hours

  /** `x` is a whole number of half hours. */
  predicate OnHalfHour(x: real) {
    (2.0 * x).Floor as real == 2.0 * x
  }

  lemma HalfHourSum(x: real, y: real)
    requires OnHalfHour(x) && OnHalfHour(y)
    ensures OnHalfHour(x + y)
  {
    var i := (2.0 * x).Floor;
    var j := (2.0 * y).Floor;
    assert 2.0 * (x + y) == (i + j) as real;
  }

  /** Below a whole number of half hours, a whole number of half hours is
      at least half an hour short of it. */
  lemma HalfHourGap(x: real, c: real)
    requires OnHalfHour(x) && OnHalfHour(c) && x < c
    ensures OnHalfHour(c - x) && c - x >= 0.5
  {
    var i := (2.0 * x).Floor;
    var j := (2.0 * c).Floor;
    assert 2.0 * (c - x) == (j - i) as real;
  }

  /** Both day accumulators are whole numbers of half hours. */
  predicate DayOnGrid(s: State) {
    OnHalfHour(s.currentDayDrivingHours) && OnHalfHour(s.currentDayOnDutyHours)
  }

  // ---------------------------------------------------------------- the grid is kept

  /** The reset and the break keep the accumulators on the grid. */
  lemma EnforcedOnGrid(s: State)
    requires LogInv(s) && DayOnGrid(s)
    ensures var r := EnforceBreak(EnforceReset(s));
      && LogInv(r) && DayOnGrid(r) && !ResetDue(r)
      && r.cycleHoursUsed == s.cycleHoursUsed
      && CountKind(r.stops, FuelStop) == CountKind(s.stops, FuelStop)
  {
    var s1 := EnforceReset(s);
    ResetKeeps(s);
    ResetRule(s);
    assert OnHalfHour(0.0);
    assert DayOnGrid(s1);
    BreakKeeps(s1);
    BreakRule(s1);
  }

  /** A segment of a whole number of half hours keeps the accumulators on
      the grid. */
  lemma DriveOnGrid(s: State, available: real)
    requires LogInv(s) && DayOnGrid(s) && OnHalfHour(available) && available > 0.0
    ensures DayOnGrid(DriveState(s, available))
  {
    var e := Entry(s.currentTime, s.currentTime + available, Driving, DrivingActivity(available));
    var a := AddEntry(s, e);
    var r := a.(currentTime := e.end,
                currentDayDrivingHours := a.currentDayDrivingHours + available,
                currentDayOnDutyHours := a.currentDayOnDutyHours + available,
                cycleHoursUsed := a.cycleHoursUsed + available,
                drivingHoursSinceLastBreak := a.drivingHoursSinceLastBreak + available);
    assert DriveState(s, available) == r;
    AddWithoutGap(s, e);
    assert OnHalfHour(0.0);
    HalfHourSum(a.currentDayDrivingHours, available);
    HalfHourSum(a.currentDayOnDutyHours, available);
  }

  /** A fuel stop keeps the accumulators on the grid. */
  lemma FuelOnGrid(s: State)
    requires LogInv(s) && DayOnGrid(s)
    ensures DayOnGrid(FuelState(s))
  {
    var e := Entry(s.currentTime, s.currentTime + MinutesToHours(FuelStopDurationMins), OnDutyNotDriving, FuelingActivity);
    FuelStopHours();
    var a := AddEntry(s, e);
    var r := a.(stops := a.stops + [Stop(FuelStop, s.currentTime, DurationMinutes(FuelStopDurationMins))],
                currentTime := e.end,
                currentDayOnDutyHours := a.currentDayOnDutyHours + 0.5,
                cycleHoursUsed := a.cycleHoursUsed + 0.5);
    assert FuelState(s) == r;
    AddWithoutGap(s, e);
    assert OnHalfHour(0.0) && OnHalfHour(0.5);
    HalfHourSum(a.currentDayOnDutyHours, 0.5);
  }

  // ---------------------------------------------------------------- mileage

  /** The miles credited for `x` of the `t` requested hours of a `d`-mile trip
      (the proportional mileage of hos_calculator.py:176-177). */
  function Share(x: real, t: real, d: real): real
    requires t > 0.0
  {
    x / t * d
  }

  lemma ShareSum(x: real, y: real, t: real, d: real)
    requires t > 0.0
    ensures Share(x, t, d) + Share(y, t, d) == Share(x + y, t, d)
  {
    assert x / t + y / t == (x + y) / t;
  }

  lemma ShareBounds(x: real, t: real, d: real)
    requires 0.0 <= x <= t && t > 0.0 && d >= 0.0
    ensures 0.0 <= Share(x, t, d) <= d
  {
    assert 0.0 <= x / t <= 1.0;
  }

  // ---------------------------------------------------------------- the progress invariant

  /** The trip fits in the cycle: the initial cycle hours, the two one-hour
      bookends, the driving and half an hour per 1000 miles stay below 70. */
  predicate HasHeadroom(initialCycle: real, totalDrivingHours: real, totalDistanceMiles: real) {
    && totalDrivingHours > 0.0 && totalDistanceMiles >= 0.0
    && initialCycle + 1.0 + totalDrivingHours + totalDistanceMiles / 2000.0 < MaxCycleHours8Days
  }

  /** What holds between the iterations of a trip with headroom, beside the
      loop invariant: the accumulators are on the half-hour grid while
      driving is left; the trip miles are the driven share of the distance;
      and each fuel stop was paid for by 1000 of the miles driven. */
  predicate Progressing(t: Trip, startTime: real, initialCycle: real, totalDrivingHours: real, totalDistanceMiles: real) {
    && HasHeadroom(initialCycle, totalDrivingHours, totalDistanceMiles)
    && TripInv(t, startTime, initialCycle, totalDrivingHours)
    && t.remainingDrivingHours <= totalDrivingHours
    && (t.remainingDrivingHours > Epsilon ==> DayOnGrid(t.calculator))
    && t.milesDrivenCurrentTrip == Share(totalDrivingHours - t.remainingDrivingHours, totalDrivingHours, totalDistanceMiles)
    && 0.0 <= t.milesDrivenSinceLastFuel
    && 1000.0 * CountKind(t.calculator.stops, FuelStop) as real + t.milesDrivenSinceLastFuel <= t.milesDrivenCurrentTrip
  }

  /** With headroom the cycle ceiling stays above the driving left. */
  lemma CycleRoom(t: Trip, startTime: real, initialCycle: real, totalDrivingHours: real, totalDistanceMiles: real)
    requires Progressing(t, startTime, initialCycle, totalDrivingHours, totalDistanceMiles)
    ensures MaxCycleHours8Days - t.calculator.cycleHoursUsed > t.remainingDrivingHours
  {
    ShareBounds(totalDrivingHours - t.remainingDrivingHours, totalDrivingHours, totalDistanceMiles);
  }

  /** On the grid, below both daily ceilings and with the cycle ceiling above
      the driving left, the next segment is all the driving left or a whole
      number of half hours, at least one. */
  lemma SegmentLength(remaining: real, dayDriving: real, dayOnDuty: real, cycleUsed: real)
    requires OnHalfHour(dayDriving) && OnHalfHour(dayOnDuty)
    requires dayDriving < MaxDrivingHoursDaily && dayOnDuty < MaxOnDutyHoursDaily
    requires MaxCycleHours8Days - cycleUsed > remaining
    ensures var a := AvailableDriving(remaining, SegmentDurationHours, dayDriving, dayOnDuty, cycleUsed);
      a == remaining || (OnHalfHour(a) && a >= 0.5)
  {
    assert OnHalfHour(MaxDrivingHoursDaily) && OnHalfHour(MaxOnDutyHoursDaily) && OnHalfHour(SegmentDurationHours);
    HalfHourGap(dayDriving, MaxDrivingHoursDaily);
    HalfHourGap(dayOnDuty, MaxOnDutyHoursDaily);
  }

  /** After the reset and the break of an iteration of a trip with headroom
      there is always more than 0.001 h to drive, so the retry of
      hos_calculator.py:158-161 never runs: the segment is all the driving
      left or a whole number of half hours, at least one. */
  lemma SegmentFacts(t: Trip, startTime: real, initialCycle: real, totalDrivingHours: real, totalDistanceMiles: real)
    requires Progressing(t, startTime, initialCycle, totalDrivingHours, totalDistanceMiles)
    requires t.remainingDrivingHours > Epsilon
    ensures var s := EnforceBreak(EnforceReset(t.calculator));
      var a := AvailableDriving(t.remainingDrivingHours, SegmentDurationHours,
                                s.currentDayDrivingHours, s.currentDayOnDutyHours, s.cycleHoursUsed);
      && TripInv(t.(calculator := s), startTime, initialCycle, totalDrivingHours)
      && LogInv(s) && DayOnGrid(s)
      && CountKind(s.stops, FuelStop) == CountKind(t.calculator.stops, FuelStop)
      && Epsilon < a <= t.remainingDrivingHours
      && (a == t.remainingDrivingHours || (OnHalfHour(a) && a >= 0.5))
  {
    var s := EnforceBreak(EnforceReset(t.calculator));
    EnforcedOnGrid(t.calculator);
    EnforceKeepsTrip(t, startTime, initialCycle, totalDrivingHours);
    CycleRoom(t, startTime, initialCycle, totalDrivingHours, totalDistanceMiles);
    SegmentLength(t.remainingDrivingHours, s.currentDayDrivingHours, s.currentDayOnDutyHours, s.cycleHoursUsed);
  }

  /** The mileage part of the progress invariant survives a segment. */
  lemma MilesAfterSegment(total: real, dist: real, remaining: real, available: real,
                          milesTrip: real, milesSinceFuel: real, fuelStops: nat)
    requires total > 0.0 && dist >= 0.0 && 0.0 < available <= remaining <= total
    requires milesTrip == Share(total - remaining, total, dist)
    requires 0.0 <= milesSinceFuel && 1000.0 * fuelStops as real + milesSinceFuel <= milesTrip
    ensures var m := SegmentMiles(available, total, dist);
      && milesTrip + m == Share(total - (remaining - available), total, dist)
      && 0.0 <= milesSinceFuel + m
      && 1000.0 * fuelStops as real + (milesSinceFuel + m) <= milesTrip + m
  {
    ShareSum(total - remaining, available, total, dist);
    ShareBounds(available, total, dist);
    assert total - (remaining - available) == (total - remaining) + available;
  }

  /** The segment's mileage keeps the mileage part of the progress
      invariant. */
  lemma SegmentMileage(t: Trip, s: State, a: real, d: Trip, totalDrivingHours: real, totalDistanceMiles: real)
    requires totalDrivingHours > 0.0 && totalDistanceMiles >= 0.0
    requires 0.0 < a <= t.remainingDrivingHours <= totalDrivingHours
    requires t.milesDrivenCurrentTrip == Share(totalDrivingHours - t.remainingDrivingHours, totalDrivingHours, totalDistanceMiles)
    requires 0.0 <= t.milesDrivenSinceLastFuel
    requires 1000.0 * CountKind(t.calculator.stops, FuelStop) as real + t.milesDrivenSinceLastFuel <= t.milesDrivenCurrentTrip
    requires CountKind(s.stops, FuelStop) == CountKind(t.calculator.stops, FuelStop)
    requires d == DriveSegment(t.(calculator := s), a, totalDrivingHours, totalDistanceMiles)
    ensures d.remainingDrivingHours == t.remainingDrivingHours - a
    ensures d.milesDrivenCurrentTrip == Share(totalDrivingHours - d.remainingDrivingHours, totalDrivingHours, totalDistanceMiles)
    ensures 0.0 <= d.milesDrivenSinceLastFuel
    ensures 1000.0 * CountKind(d.calculator.stops, FuelStop) as real + d.milesDrivenSinceLastFuel <= d.milesDrivenCurrentTrip
  {
    MilesAfterSegment(totalDrivingHours, totalDistanceMiles, t.remainingDrivingHours, a,
                      t.milesDrivenCurrentTrip, t.milesDrivenSinceLastFuel, CountKind(s.stops, FuelStop));
    var e := Entry(s.currentTime, s.currentTime + a, Driving, DrivingActivity(a));
    AddEntryFrame(s, e);
    assert d.calculator.stops == AddEntry(s, e).stops;
  }

  /** A segment of the length `SegmentFacts` guarantees, driven from the
      state `s` the reset and the break left, keeps the progress invariant
      and ends the trip or takes at least half an hour off the driving left. */
  lemma SegmentProgress(t: Trip, s: State, a: real, d: Trip, startTime: real, initialCycle: real,
                        totalDrivingHours: real, totalDistanceMiles: real)
    requires Progressing(t, startTime, initialCycle, totalDrivingHours, totalDistanceMiles)
    requires TripInv(t.(calculator := s), startTime, initialCycle, totalDrivingHours)
    requires LogInv(s) && DayOnGrid(s)
    requires CountKind(s.stops, FuelStop) == CountKind(t.calculator.stops, FuelStop)
    requires Epsilon < a <= t.remainingDrivingHours && a <= SegmentDurationHours
    requires a <= MaxDrivingHoursDaily - s.currentDayDrivingHours
    requires a == t.remainingDrivingHours || (OnHalfHour(a) && a >= 0.5)
    requires d == DriveSegment(t.(calculator := s), a, totalDrivingHours, totalDistanceMiles)
    ensures Progressing(d, startTime, initialCycle, totalDrivingHours, totalDistanceMiles)
    ensures d.remainingDrivingHours == 0.0 || d.remainingDrivingHours <= t.remainingDrivingHours - 0.5
  {
    DriveKeepsTrip(t.(calculator := s), a, startTime, initialCycle, totalDrivingHours, totalDistanceMiles);
    SegmentMileage(t, s, a, d, totalDrivingHours, totalDistanceMiles);
    if a != t.remainingDrivingHours {
      DriveOnGrid(s, a);
    }
  }

  /** The first half of an iteration of a trip with headroom: the retry
      does not run, and the segment keeps the progress invariant and ends
      the trip or takes at least half an hour off the driving left. */
  lemma DriveProgress(t: Trip, startTime: real, initialCycle: real, totalDrivingHours: real, totalDistanceMiles: real)
    requires Progressing(t, startTime, initialCycle, totalDrivingHours, totalDistanceMiles)
    requires t.remainingDrivingHours > Epsilon
    ensures var s := EnforceBreak(EnforceReset(t.calculator));
      var a := AvailableDriving(t.remainingDrivingHours, SegmentDurationHours,
                                s.currentDayDrivingHours, s.currentDayOnDutyHours, s.cycleHoursUsed);
      var d := DriveSegment(t.(calculator := s), a, totalDrivingHours, totalDistanceMiles);
      && a > Epsilon
      && Progressing(d, startTime, initialCycle, totalDrivingHours, totalDistanceMiles)
      && (d.remainingDrivingHours == 0.0 || d.remainingDrivingHours <= t.remainingDrivingHours - 0.5)
  {
    var s := EnforceBreak(EnforceReset(t.calculator));
    var a := AvailableDriving(t.remainingDrivingHours, SegmentDurationHours,
                              s.currentDayDrivingHours, s.currentDayOnDutyHours, s.cycleHoursUsed);
    SegmentFacts(t, startTime, initialCycle, totalDrivingHours, totalDistanceMiles);
    var d := DriveSegment(t.(calculator := s), a, totalDrivingHours, totalDistanceMiles);
    SegmentProgress(t, s, a, d, startTime, initialCycle, totalDrivingHours, totalDistanceMiles);
  }

  /** The fuel check keeps the progress invariant: a fuel stop is only made
      once 1000 miles have gathered since the last one. */
  lemma FuelProgress(t: Trip, startTime: real, initialCycle: real, totalDrivingHours: real, totalDistanceMiles: real)
    requires Progressing(t, startTime, initialCycle, totalDrivingHours, totalDistanceMiles)
    ensures Progressing(FuelCheck(t), startTime, initialCycle, totalDrivingHours, totalDistanceMiles)
    ensures FuelCheck(t).remainingDrivingHours == t.remainingDrivingHours
  {
    FuelKeepsTrip(t, startTime, initialCycle, totalDrivingHours);
    if t.milesDrivenSinceLastFuel >= FuelStopIntervalMiles {
      FuelKeeps(t.calculator);
      if t.remainingDrivingHours > Epsilon {
        FuelOnGrid(t.calculator);
      }
    }
  }

  /** An iteration of a trip with headroom keeps the progress invariant and
      ends the trip or takes at least half an hour off the driving left. */
  lemma StepProgress(t: Trip, startTime: real, initialCycle: real, totalDrivingHours: real, totalDistanceMiles: real)
    requires Progressing(t, startTime, initialCycle, totalDrivingHours, totalDistanceMiles)
    requires t.remainingDrivingHours > Epsilon
    ensures var n := Step(t, totalDrivingHours, totalDistanceMiles);
      && Progressing(n, startTime, initialCycle, totalDrivingHours, totalDistanceMiles)
      && (n.remainingDrivingHours == 0.0 || n.remainingDrivingHours <= t.remainingDrivingHours - 0.5)
  {
    var s := EnforceBreak(EnforceReset(t.calculator));
    var a := AvailableDriving(t.remainingDrivingHours, SegmentDurationHours,
                              s.currentDayDrivingHours, s.currentDayOnDutyHours, s.cycleHoursUsed);
    var d := DriveSegment(t.(calculator := s), a, totalDrivingHours, totalDistanceMiles);
    DriveProgress(t, startTime, initialCycle, totalDrivingHours, totalDistanceMiles);
    FuelProgress(d, startTime, initialCycle, totalDrivingHours, totalDistanceMiles);
    assert Step(t, totalDrivingHours, totalDistanceMiles) == FuelCheck(d);
  }

  // ---------------------------------------------------------------- the loop finishes

  /** A run of a trip with headroom ends with at most 0.001 h of driving
      left once it is given at least two iterations per hour left. */
  lemma {:induction false} RunFinishes(t: Trip, startTime: real, initialCycle: real, totalDrivingHours: real,
                                       totalDistanceMiles: real, maxIterations: nat)
    requires Progressing(t, startTime, initialCycle, totalDrivingHours, totalDistanceMiles)
    requires 2.0 * t.remainingDrivingHours <= maxIterations as real
    ensures Run(t, totalDrivingHours, totalDistanceMiles, maxIterations).remainingDrivingHours <= Epsilon
    decreases maxIterations
  {
    if t.remainingDrivingHours > Epsilon {
      var next := Step(t, totalDrivingHours, totalDistanceMiles);
      assert Run(t, totalDrivingHours, totalDistanceMiles, maxIterations)
          == Run(next, totalDrivingHours, totalDistanceMiles, maxIterations - 1);
      StepProgress(t, startTime, initialCycle, totalDrivingHours, totalDistanceMiles);
      RunFinishes(next, startTime, initialCycle, totalDrivingHours, totalDistanceMiles, maxIterations - 1);
    }
  }

  /** Running `n` iterations and then `k` more is running `n + k`. */
  lemma {:induction false} RunSplit(t: Trip, totalDrivingHours: real, totalDistanceMiles: real, n: nat, k: nat)
    ensures Run(t, totalDrivingHours, totalDistanceMiles, n + k)
         == Run(Run(t, totalDrivingHours, totalDistanceMiles, n), totalDrivingHours, totalDistanceMiles, k)
    decreases n
  {
    if n == 0 {
      assert Run(t, totalDrivingHours, totalDistanceMiles, 0) == t;
    } else if t.remainingDrivingHours <= Epsilon {
      assert Run(t, totalDrivingHours, totalDistanceMiles, n) == t;
      assert Run(t, totalDrivingHours, totalDistanceMiles, n + k) == t;
      assert Run(t, totalDrivingHours, totalDistanceMiles, k) == t;
    } else {
      var next := Step(t, totalDrivingHours, totalDistanceMiles);
      assert Run(t, totalDrivingHours, totalDistanceMiles, n) == Run(next, totalDrivingHours, totalDistanceMiles, n - 1);
      assert Run(t, totalDrivingHours, totalDistanceMiles, n + k)
          == Run(next, totalDrivingHours, totalDistanceMiles, (n - 1) + k);
      RunSplit(next, totalDrivingHours, totalDistanceMiles, n - 1, k);
    }
  }

  /** A run with no driving left does nothing. */
  lemma RunStops(t: Trip, totalDrivingHours: real, totalDistanceMiles: real, k: nat)
    requires t.remainingDrivingHours <= Epsilon
    ensures Run(t, totalDrivingHours, totalDistanceMiles, k) == t
  {
  }

  /** The pickup starts the progress invariant. */
  lemma PickupStartsProgress(startTime: real, initialCycle: real, totalDrivingHours: real, totalDistanceMiles: real)
    requires HasHeadroom(initialCycle, totalDrivingHours, totalDistanceMiles)
    ensures Progressing(Trip(RecordPickup(Init(startTime, initialCycle)), totalDrivingHours, 0.0, 0.0),
                        startTime, initialCycle, totalDrivingHours, totalDistanceMiles)
  {
    PickupStartsRun(startTime, initialCycle, totalDrivingHours);
    PickupBookend(startTime, initialCycle);
    assert OnHalfHour(0.0) && OnHalfHour(1.0);
    CountKindSnoc([], Stop(Pickup, startTime, DurationHours(1.0)), FuelStop);
    assert Share(0.0, totalDrivingHours, totalDistanceMiles) == 0.0;
  }

  /** A trip that fits in the cycle always gets its logs
      (hos_calculator.py:130-213 returns): twice as many iterations as hours
      of driving, plus one, are enough, and any larger bound gives the same
      logs. */
  lemma TripWithHeadroomCompletes(startTime: real, totalDrivingHours: real, totalDistanceMiles: real,
                                  initialCycle: real, maxIterations: nat, extraIterations: nat)
    requires HasHeadroom(initialCycle, totalDrivingHours, totalDistanceMiles)
    requires (2.0 * totalDrivingHours).Floor + 1 <= maxIterations
    ensures CalculateTripLogs(startTime, totalDrivingHours, totalDistanceMiles, initialCycle, maxIterations).Some?
    ensures CalculateTripLogs(startTime, totalDrivingHours, totalDistanceMiles, initialCycle, maxIterations + extraIterations)
         == CalculateTripLogs(startTime, totalDrivingHours, totalDistanceMiles, initialCycle, maxIterations)
  {
    var started := Trip(RecordPickup(Init(startTime, initialCycle)), totalDrivingHours, 0.0, 0.0);
    PickupStartsProgress(startTime, initialCycle, totalDrivingHours, totalDistanceMiles);
    RunFinishes(started, startTime, initialCycle, totalDrivingHours, totalDistanceMiles, maxIterations);
    RunSplit(started, totalDrivingHours, totalDistanceMiles, maxIterations, extraIterations);
    RunStops(Run(started, totalDrivingHours, totalDistanceMiles, maxIterations), totalDrivingHours, totalDistanceMiles, extraIterations);
  }

  // ---------------------------------------------------------------- the loop stalls

  /** Once the cycle is used up to within 0.001 h while no reset and no break
      is due, an iteration changes nothing: the reset and the break do not
      fire, nothing can be driven, and the retry reset does not fire either.
      So the loop of hos_calculator.py:145-161 never ends, and every bound
      on the iterations is exhausted with the same driving left. */
  lemma {:induction false} CycleExhaustedStalls(t: Trip, totalDrivingHours: real, totalDistanceMiles: real, maxIterations: nat)
    requires !ResetDue(t.calculator) && !BreakDue(t.calculator)
    requires MaxCycleHours8Days - t.calculator.cycleHoursUsed <= Epsilon
    ensures Step(t, totalDrivingHours, totalDistanceMiles) == t
    ensures Run(t, totalDrivingHours, totalDistanceMiles, maxIterations) == t
    decreases maxIterations
  {
    assert EnforceBreak(EnforceReset(t.calculator)) == t.calculator;
    if t.remainingDrivingHours > Epsilon && maxIterations > 0 {
      assert Run(t, totalDrivingHours, totalDistanceMiles, maxIterations)
          == Run(Step(t, totalDrivingHours, totalDistanceMiles), totalDrivingHours, totalDistanceMiles, maxIterations - 1);
      CycleExhaustedStalls(t, totalDrivingHours, totalDistanceMiles, maxIterations - 1);
    }
  }

  /** A trip that starts with 69 or more of the 70 cycle hours used (to
      within 0.001 h) and asks for any driving never gets its logs: the
      pickup hour uses the cycle up and the loop stalls at once. */
  lemma ExhaustedCycleNeverCompletes(startTime: real, totalDrivingHours: real, totalDistanceMiles: real,
                                     initialCycle: real, maxIterations: nat)
    requires initialCycle >= MaxCycleHours8Days - PickupDropoffDurationHours - Epsilon
    requires totalDrivingHours > Epsilon
    ensures CalculateTripLogs(startTime, totalDrivingHours, totalDistanceMiles, initialCycle, maxIterations) == None
  {
    var started := Trip(RecordPickup(Init(startTime, initialCycle)), totalDrivingHours, 0.0, 0.0);
    PickupBookend(startTime, initialCycle);
    CycleExhaustedStalls(started, totalDrivingHours, totalDistanceMiles, maxIterations);
  }
}
