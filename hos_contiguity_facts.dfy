/** Within one day list the log has no holes and no overlaps: each entry
    starts where the one before it ends.  Every write of `calculate_logs`
    happens at the clock, the clock is the end of the current day list's last
    entry, and the midnight filler starts at that end, so the property is
    kept from the pickup to the dropoff.  (Across a day rollover it does not
    hold: the entry that caused the rollover starts before the midnight the
    filler ends at.) */
module HosContiguityFacts {
  import opened Wrappers
  import opened HosRules
  import opened HosLogFacts
  import opened HosEnforceFacts
  import opened HosTripFacts

  // ---------------------------------------------------------------- chains

  /** Each entry of `es` starts where the one before it ends. */
  predicate Chain(es: seq<Entry>) {
    forall i :: 0 < i < |es| ==> es[i - 1].end == es[i].start
  }

  /** Every day list is a chain. */
  predicate DayChains(days: seq<seq<Entry>>) {
    forall i :: 0 <= i < |days| ==> Chain(days[i])
  }

  /** The closed day lists and the current one are chains, and the current
      one, when it has entries, ends at the clock. */
  predicate Contiguous(s: State) {
    && DayChains(s.closedDays)
    && Chain(s.currentDay)
    && (s.currentDay != [] ==> Last(s.currentDay).end == s.currentTime)
  }

  lemma ChainSnoc(es: seq<Entry>, x: Entry)
    requires Chain(es) && (es != [] ==> Last(es).end == x.start)
    ensures Chain(es + [x])
  {
    var r := es + [x];
    forall i | 0 < i < |r|
      ensures r[i - 1].end == r[i].start
    {
      if i < |es| {
        assert r[i - 1] == es[i - 1] && r[i] == es[i];
      }
    }
  }

  lemma DayChainsSnoc(days: seq<seq<Entry>>, day: seq<Entry>)
    requires DayChains(days) && Chain(day)
    ensures DayChains(days + [day])
  {
    var r := days + [day];
    forall i | 0 <= i < |r|
      ensures Chain(r[i])
    {
      if i < |days| {
        assert r[i] == days[i];
      }
    }
  }

  /** A chain of entries of positive length is ordered in time: an earlier
      entry ends no later than any later one starts, so no two overlap. */
  lemma {:induction false} ChainOrdered(es: seq<Entry>)
    requires Chain(es) && Positive(es)
    ensures forall i, j :: 0 <= i < j < |es| ==> es[i].end <= es[j].start
    decreases |es|
  {
    if |es| > 1 {
      var p := es[..|es| - 1];
      assert Chain(p) && Positive(p) by {
        forall i | 0 < i < |p|
          ensures p[i - 1].end == p[i].start
        {
          assert p[i - 1] == es[i - 1] && p[i] == es[i];
        }
        forall i | 0 <= i < |p|
          ensures p[i].start < p[i].end
        {
          assert p[i] == es[i];
        }
      }
      ChainOrdered(p);
      forall i, j | 0 <= i < j < |es|
        ensures es[i].end <= es[j].start
      {
        if j < |es| - 1 {
          assert es[i] == p[i] && es[j] == p[j];
        } else if i < j - 1 {
          assert es[i] == p[i] && es[j - 1] == p[j - 1];
          assert p[i].end <= p[j - 1].start;
        }
      }
    }
  }

  // ---------------------------------------------------------------- one write

  /** An add at the clock keeps every day list a chain and leaves its entry
      last in the current list. */
  lemma AddAtClockChains(s: State, e: Entry)
    requires LogInv(s) && Contiguous(s) && e.start == s.currentTime && e.start < e.end
    ensures var a := AddEntry(s, e);
      && DayChains(a.closedDays) && Chain(a.currentDay)
      && a.currentDay != [] && Last(a.currentDay) == e
  {
    var a := AddEntry(s, e);
    AddWithoutGap(s, e);
    if RolloverDue(s, e.end) {
      var b := BoundaryEntry(Last(s.currentDay).end);
      ChainSnoc(s.currentDay, b);
      DayChainsSnoc(s.closedDays, s.currentDay + [b]);
      DayChainsSnoc(s.closedDays + [s.currentDay + [b]], []);
      assert a.closedDays == s.closedDays + [s.currentDay + [b]] + [[]];
    } else {
      ChainSnoc(s.currentDay, e);
      if s.currentDay == [] {
        DayChainsSnoc(s.closedDays, []);
      }
    }
  }

  /** After an add at the clock, moving the clock to the entry's end without
      touching the day lists restores `Contiguous`. */
  lemma ClockToEntryEnd(e: Entry, a: State, r: State)
    requires DayChains(a.closedDays) && Chain(a.currentDay) && a.currentDay != [] && Last(a.currentDay) == e
    requires r.closedDays == a.closedDays && r.currentDay == a.currentDay && r.currentTime == e.end
    ensures Contiguous(r)
  {
  }

  // ---------------------------------------------------------------- the steps

  lemma ResetContiguous(s: State)
    requires LogInv(s) && Contiguous(s)
    ensures Contiguous(EnforceReset(s))
  {
    if ResetDue(s) {
      var e := ResetEntry(s);
      var a := AddEntry(s, e);
      assert EnforceReset(s).closedDays == a.closedDays + [a.currentDay] && EnforceReset(s).currentDay == [] by {
        AddEntryEffect(s, e);
      }
      AddAtClockChains(s, e);
      DayChainsSnoc(a.closedDays, a.currentDay);
    }
  }

  lemma BreakContiguous(s: State)
    requires LogInv(s) && Contiguous(s)
    ensures Contiguous(EnforceBreak(s))
  {
    if BreakDue(s) {
      var e := BreakEntry(s);
      var a := AddEntry(s, e);
      var r := EnforceBreak(s);
      assert r.closedDays == a.closedDays && r.currentDay == a.currentDay && r.currentTime == e.end;
      AddAtClockChains(s, e);
      ClockToEntryEnd(e, a, r);
    }
  }

  lemma DriveContiguous(s: State, available: real)
    requires LogInv(s) && Contiguous(s) && available > 0.0
    ensures Contiguous(DriveState(s, available))
  {
    var e := DriveEntry(s, available);
    var a := AddEntry(s, e);
    var r := DriveState(s, available);
    assert r.closedDays == a.closedDays && r.currentDay == a.currentDay && r.currentTime == e.end;
    AddAtClockChains(s, e);
    ClockToEntryEnd(e, a, r);
  }

  lemma FuelContiguous(s: State)
    requires LogInv(s) && Contiguous(s)
    ensures Contiguous(FuelState(s))
  {
    var e := FuelEntry(s);
    var a := AddEntry(s, e);
    var r := FuelState(s);
    assert r.closedDays == a.closedDays && r.currentDay == a.currentDay && r.currentTime == e.end;
    FuelStopHours();
    AddAtClockChains(s, e);
    ClockToEntryEnd(e, a, r);
  }

  lemma DropoffContiguous(s: State)
    requires LogInv(s) && Contiguous(s)
    ensures Contiguous(RecordDropoff(s))
  {
    var e := Entry(s.currentTime, s.currentTime + PickupDropoffDurationHours, OnDutyNotDriving, DropoffActivity);
    var a := AddEntry(s, e);
    var r := RecordDropoff(s);
    assert r.closedDays == a.closedDays && r.currentDay == a.currentDay && r.currentTime == e.end;
    AddAtClockChains(s, e);
    ClockToEntryEnd(e, a, r);
  }

  /** One iteration of the main loop (hos_calculator.py:146-190) keeps every
      day list a chain. */
  lemma StepContiguous(t: Trip, startTime: real, initialCycle: real, totalDrivingHours: real, totalDistanceMiles: real)
    requires TripInv(t, startTime, initialCycle, totalDrivingHours) && Contiguous(t.calculator)
    ensures Contiguous(Step(t, totalDrivingHours, totalDistanceMiles).calculator)
  {
    var s1 := EnforceReset(t.calculator);
    ResetKeeps(t.calculator);
    ResetContiguous(t.calculator);
    var s2 := EnforceBreak(s1);
    BreakKeeps(s1);
    BreakContiguous(s1);
    var available := AvailableDriving(t.remainingDrivingHours, SegmentDurationHours,
                                      s2.currentDayDrivingHours, s2.currentDayOnDutyHours, s2.cycleHoursUsed);
    if available <= Epsilon {
      ResetContiguous(s2);
    } else {
      var d := DriveSegment(t.(calculator := s2), available, totalDrivingHours, totalDistanceMiles);
      DriveKeeps(s2, available);
      DriveContiguous(s2, available);
      if d.milesDrivenSinceLastFuel >= FuelStopIntervalMiles {
        FuelContiguous(d.calculator);
      }
      assert Step(t, totalDrivingHours, totalDistanceMiles) == FuelCheck(d);
    }
  }

  /** Any number of iterations keeps every day list a chain. */
  lemma {:induction false} RunContiguous(t: Trip, startTime: real, initialCycle: real, totalDrivingHours: real,
                                         totalDistanceMiles: real, maxIterations: nat)
    requires TripInv(t, startTime, initialCycle, totalDrivingHours) && Contiguous(t.calculator)
    ensures Contiguous(Run(t, totalDrivingHours, totalDistanceMiles, maxIterations).calculator)
    decreases maxIterations
  {
    if t.remainingDrivingHours > Epsilon && maxIterations > 0 {
      var next := Step(t, totalDrivingHours, totalDistanceMiles);
      assert Run(t, totalDrivingHours, totalDistanceMiles, maxIterations)
          == Run(next, totalDrivingHours, totalDistanceMiles, maxIterations - 1);
      StepKeeps(t, startTime, initialCycle, totalDrivingHours, totalDistanceMiles);
      StepContiguous(t, startTime, initialCycle, totalDrivingHours, totalDistanceMiles);
      RunContiguous(next, startTime, initialCycle, totalDrivingHours, totalDistanceMiles, maxIterations - 1);
    }
  }

  /** The day lists a completed trip returns are chains of entries of
      positive length. */
  lemma CompletedTripChains(startTime: real, totalDrivingHours: real, totalDistanceMiles: real,
                            initialCycle: real, maxIterations: nat)
    requires CalculateTripLogs(startTime, totalDrivingHours, totalDistanceMiles, initialCycle, maxIterations).Some?
    ensures var l := CalculateTripLogs(startTime, totalDrivingHours, totalDistanceMiles, initialCycle, maxIterations).value;
      DayChains(l.dailyLogs) && Positive(Flatten(l.dailyLogs))
  {
    var started := Trip(RecordPickup(Init(startTime, initialCycle)), totalDrivingHours, 0.0, 0.0);
    var t := Run(started, totalDrivingHours, totalDistanceMiles, maxIterations);
    var f := RecordDropoff(t.calculator);
    assert CalculateTripLogs(startTime, totalDrivingHours, totalDistanceMiles, initialCycle, maxIterations).value
        == TripLogs(f.DailyLogs(), f.stops, f.cycleHoursUsed);
    PickupStartsRun(startTime, initialCycle, totalDrivingHours);
    PickupBookend(startTime, initialCycle);
    assert Contiguous(started.calculator);
    RunKeeps(started, startTime, initialCycle, totalDrivingHours, totalDistanceMiles, maxIterations);
    RunContiguous(started, startTime, initialCycle, totalDrivingHours, totalDistanceMiles, maxIterations);
    DropoffKeeps(t.calculator);
    DropoffContiguous(t.calculator);
    DayChainsSnoc(f.closedDays, f.currentDay);
    DayListsOfInv(f);
  }

  /** Day lists that are chains of entries of positive length are each
      ordered in time, with no two entries overlapping. */
  lemma DaysOrdered(days: seq<seq<Entry>>)
    requires DayChains(days) && Positive(Flatten(days))
    ensures forall d :: 0 <= d < |days| ==>
      forall i, j :: 0 <= i < j < |days[d]| ==> days[d][i].end <= days[d][j].start
  {
    forall d: int | 0 <= d < |days|
      ensures forall i, j :: 0 <= i < j < |days[d]| ==> days[d][i].end <= days[d][j].start
    {
      DayPositive(days, d);
      ChainOrdered(days[d]);
    }
  }

  /** The day lists of a completed trip (hos_calculator.py:130-213): in each
      one every entry starts where the previous one ends, and entries follow
      each other in time without overlapping. */
  lemma CompletedTripContiguous(startTime: real, totalDrivingHours: real, totalDistanceMiles: real,
                                initialCycle: real, maxIterations: nat)
    requires CalculateTripLogs(startTime, totalDrivingHours, totalDistanceMiles, initialCycle, maxIterations).Some?
    ensures var l := CalculateTripLogs(startTime, totalDrivingHours, totalDistanceMiles, initialCycle, maxIterations).value;
      forall d :: 0 <= d < |l.dailyLogs| ==>
        && Chain(l.dailyLogs[d])
        && (forall i, j :: 0 <= i < j < |l.dailyLogs[d]| ==> l.dailyLogs[d][i].end <= l.dailyLogs[d][j].start)
  {
    var l := CalculateTripLogs(startTime, totalDrivingHours, totalDistanceMiles, initialCycle, maxIterations).value;
    CompletedTripChains(startTime, totalDrivingHours, totalDistanceMiles, initialCycle, maxIterations);
    DaysOrdered(l.dailyLogs);
  }

  /** A day list of a log whose entries all have positive length has only
      entries of positive length. */
  lemma {:induction false} DayPositive(days: seq<seq<Entry>>, d: int)
    requires 0 <= d < |days| && Positive(Flatten(days))
    ensures Positive(days[d])
    decreases |days|
  {
    var p := days[..|days| - 1];
    var fp := Flatten(p);
    assert Flatten(days) == fp + Last(days);
    if d == |days| - 1 {
      forall i | 0 <= i < |days[d]|
        ensures days[d][i].start < days[d][i].end
      {
        assert days[d][i] == Flatten(days)[|fp| + i];
      }
    } else {
      forall i | 0 <= i < |fp|
        ensures fp[i].start < fp[i].end
      {
        assert fp[i] == Flatten(days)[i];
      }
      DayPositive(p, d);
      assert p[d] == days[d];
    }
  }
}
