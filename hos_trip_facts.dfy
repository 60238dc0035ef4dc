/** Facts about `calculate_logs`: the invariant every iteration of the main
    loop keeps, and what a completed trip's logs and stops satisfy. */
module HosTripFacts {
  import opened Wrappers
  import opened HosRules
  import opened HosLogFacts
  import opened HosEnforceFacts

  // ---------------------------------------------------------------- stop counts

  /** The number of stops of kind `k`. */
  function CountKind(stops: seq<Stop>, k: StopKind): nat
  {
    if stops == [] then 0
    else CountKind(stops[..|stops| - 1], k) + (if Last(stops).kind == k then 1 else 0)
  }

  lemma CountKindSnoc(stops: seq<Stop>, x: Stop, k: StopKind)
    ensures CountKind(stops + [x], k) == CountKind(stops, k) + (if x.kind == k then 1 else 0)
  {
    assert (stops + [x])[..|stops|] == stops;
  }

  lemma SingleEntryTimes(e: Entry)
    ensures DrivingTime([e]) == if e.status == Driving then e.end - e.start else 0.0
    ensures OnDutyTime([e]) == if e.status in {Driving, OnDutyNotDriving} then e.end - e.start else 0.0
  {
    assert [e][..0] == [];
    assert TimeIn([], {Driving}) == 0.0;
    assert TimeIn([], {Driving, OnDutyNotDriving}) == 0.0;
    assert TimeIn([e], {Driving}) == TimeIn([], {Driving}) + (if e.status in {Driving} then e.end - e.start else 0.0);
    assert TimeIn([e], {Driving, OnDutyNotDriving})
        == TimeIn([], {Driving, OnDutyNotDriving}) + (if e.status in {Driving, OnDutyNotDriving} then e.end - e.start else 0.0);
  }

  // ---------------------------------------------------------------- the log invariant

  /** What holds of the calculator between the steps of a run: the per-day
      accumulators are the driving and on-duty hours logged in the current
      day list, no day list holds more than 11 h of driving, every entry is
      non-empty, the first day list is empty, and the clock stands at the end
      of the last activity. */
  predicate LogInv(s: State) {
    && s.currentDayDrivingHours == DrivingTime(s.currentDay)
    && s.currentDayOnDutyHours == OnDutyTime(s.currentDay)
    && s.currentDayDrivingHours <= MaxDrivingHoursDaily
    && (forall i :: 0 <= i < |s.closedDays| ==> DrivingTime(s.closedDays[i]) <= MaxDrivingHoursDaily)
    && Positive(AllEntries(s))
    && s.closedDays != [] && s.closedDays[0] == []
    && s.lastActivityEndTime == s.currentTime
  }

  /** What an add at the current clock does, for the state `a` it produces:
      no gap is filled; the log gains the entry (after an off-duty
      end-of-day filler on a rollover); the day list it lands in is the
      current one extended, or a new one holding only it, with the
      accumulators cleared. */
  predicate AddedAtClock(s: State, e: Entry, a: State) {
    && a.currentTime == s.currentTime && a.cycleHoursUsed == s.cycleHoursUsed && a.stops == s.stops
    && a.lastActivityEndTime == e.end
    && DrivingTime(AllEntries(a)) == DrivingTime(AllEntries(s)) + DrivingTime([e])
    && OnDutyTime(AllEntries(a)) == OnDutyTime(AllEntries(s)) + OnDutyTime([e])
    && Positive(AllEntries(a))
    && (forall i :: 0 <= i < |a.closedDays| ==> DrivingTime(a.closedDays[i]) <= MaxDrivingHoursDaily)
    && a.closedDays != [] && a.closedDays[0] == []
    && ((SameDayAccumulators(s, a) && a.currentDay == s.currentDay + [e])
        || (ClearedDayAccumulators(a) && a.currentDay == [e]))
  }

  lemma AddAtClock(s: State, e: Entry)
    requires LogInv(s) && e.start == s.currentTime && e.start < e.end
    ensures AddedAtClock(s, e, AddEntry(s, e))
  {
    AddWithoutGap(s, e);
    AtClockFacts(s, e, AddEntry(s, e));
  }

  lemma AtClockFacts(s: State, e: Entry, a: State)
    requires LogInv(s) && e.start < e.end && AppendedWithoutGap(s, e, a)
    ensures AddedAtClock(s, e, a)
  {
    SingleEntryTimes(e);
    assert DrivingTime([]) == 0.0;
    if RolloverDue(s, e.end) {
      var b := BoundaryEntry(Last(s.currentDay).end);
      SingleEntryTimes(b);
      DayTimesAppend(s.currentDay, [b]);
      DayTimesAppend(AllEntries(s), [b, e]);
      DayTimesAppend([b], [e]);
      assert [b, e] == [b] + [e];
      PositiveAppend(AllEntries(s), [b, e]);
      forall i | 0 <= i < |a.closedDays|
        ensures DrivingTime(a.closedDays[i]) <= MaxDrivingHoursDaily
      {
        if i == |s.closedDays| {
          assert a.closedDays[i] == s.currentDay + [b];
        } else if i > |s.closedDays| {
          assert a.closedDays[i] == [];
        }
      }
    } else {
      DayTimesAppend(AllEntries(s), [e]);
      PositiveAppend(AllEntries(s), [e]);
      forall i | 0 <= i < |a.closedDays|
        ensures DrivingTime(a.closedDays[i]) <= MaxDrivingHoursDaily
      {
        if i >= |s.closedDays| {
          assert a.closedDays[i] == [];
        }
      }
    }
  }

  /** After an add at the clock, moving the clock to the entry's end and
      crediting the entry's driving and on-duty time to the day accumulators
      restores the log invariant, provided the day's driving stays within
      11 h. */
  lemma InvAfterAdd(s: State, e: Entry, a: State, r: State)
    requires LogInv(s) && AddedAtClock(s, e, a)
    requires r.closedDays == a.closedDays && r.currentDay == a.currentDay
    requires r.currentTime == e.end && r.lastActivityEndTime == e.end
    requires r.currentDayDrivingHours == a.currentDayDrivingHours + DrivingTime([e])
    requires r.currentDayOnDutyHours == a.currentDayOnDutyHours + OnDutyTime([e])
    requires DrivingTime([e]) <= MaxDrivingHoursDaily - s.currentDayDrivingHours
    requires DrivingTime([e]) <= MaxDrivingHoursDaily
    ensures LogInv(r) && AllEntries(r) == AllEntries(a)
  {
    assert AllEntries(r) == AllEntries(a);
    if SameDayAccumulators(s, a) && a.currentDay == s.currentDay + [e] {
      DayTimesAppend(s.currentDay, [e]);
      assert r.currentDayDrivingHours == DrivingTime(r.currentDay);
    } else {
      assert a.currentDay == [e] && a.currentDayDrivingHours == 0.0 && a.currentDayOnDutyHours == 0.0;
    }
  }

  /** The reset keeps the log invariant and the logged totals, and adds a
      stop that is not a fuel stop. */
  lemma ResetKeeps(s: State)
    requires LogInv(s)
    ensures var r := EnforceReset(s);
      && LogInv(r)
      && DrivingTime(AllEntries(r)) == DrivingTime(AllEntries(s))
      && OnDutyTime(AllEntries(r)) == OnDutyTime(AllEntries(s))
      && r.cycleHoursUsed == s.cycleHoursUsed
      && s.stops <= r.stops && CountKind(r.stops, FuelStop) == CountKind(s.stops, FuelStop)
      && !ResetDue(r)
  {
    if ResetDue(s) {
      var e := ResetEntry(s);
      var a := AddEntry(s, e);
      var x := Stop(TenHourOffDuty, s.currentTime, DurationHours(MinOffDutyHoursReset));
      AddAtClock(s, e);
      var r := a.(closedDays := a.closedDays + [a.currentDay], currentDay := [],
                  stops := a.stops + [x], currentTime := e.end,
                  currentDayDrivingHours := 0.0, currentDayOnDutyHours := 0.0,
                  drivingHoursSinceLastBreak := 0.0, lastBreakTakenTime := None,
                  lastActivityEndTime := e.end);
      assert EnforceReset(s) == r;
      ResetAfterAdd(s, e, a, x, r);
    }
  }

  /** The reset's off-duty entry at the clock, recorded as stop `x`, with
      the clock moved to its end, the accumulators cleared and the day list
      closed, keeps the log invariant and the logged totals and leaves no
      reset due. */
  lemma ResetAfterAdd(s: State, e: Entry, a: State, x: Stop, r: State)
    requires LogInv(s) && e.start == s.currentTime && e.start < e.end && e.status == OffDuty
    requires AddedAtClock(s, e, a)
    requires r == a.(closedDays := a.closedDays + [a.currentDay], currentDay := [],
                     stops := a.stops + [x], currentTime := e.end,
                     currentDayDrivingHours := 0.0, currentDayOnDutyHours := 0.0,
                     drivingHoursSinceLastBreak := 0.0, lastBreakTakenTime := None,
                     lastActivityEndTime := e.end)
    requires x.kind != FuelStop
    ensures LogInv(r)
    ensures DrivingTime(AllEntries(r)) == DrivingTime(AllEntries(s))
    ensures OnDutyTime(AllEntries(r)) == OnDutyTime(AllEntries(s))
    ensures r.cycleHoursUsed == s.cycleHoursUsed
    ensures s.stops <= r.stops && CountKind(r.stops, FuelStop) == CountKind(s.stops, FuelStop)
    ensures !ResetDue(r)
  {
    FlattenSnoc(a.closedDays, a.currentDay);
    assert AllEntries(r) == AllEntries(a);
    OffDutyDayBound(s, e, a);
    DaysWithinLimitSnoc(a.closedDays, a.currentDay);
    assert DrivingTime([]) == 0.0;
    CountKindSnoc(s.stops, x, FuelStop);
  }

  /** An off-duty entry adds no driving to the day list it lands in. */
  lemma OffDutyDayBound(s: State, e: Entry, a: State)
    requires LogInv(s) && e.status == OffDuty && AddedAtClock(s, e, a)
    ensures DrivingTime(a.currentDay) <= MaxDrivingHoursDaily
  {
    SingleEntryTimes(e);
    DayTimesAppend(s.currentDay, [e]);
  }

  /** Closing a day list within the driving limit keeps every closed day
      list within it. */
  lemma DaysWithinLimitSnoc(days: seq<seq<Entry>>, day: seq<Entry>)
    requires forall i :: 0 <= i < |days| ==> DrivingTime(days[i]) <= MaxDrivingHoursDaily
    requires DrivingTime(day) <= MaxDrivingHoursDaily
    ensures forall i :: 0 <= i < |days + [day]| ==> DrivingTime((days + [day])[i]) <= MaxDrivingHoursDaily
  {
    forall i | 0 <= i < |days + [day]|
      ensures DrivingTime((days + [day])[i]) <= MaxDrivingHoursDaily
    {
      if i == |days| {
        assert (days + [day])[i] == day;
      } else {
        assert (days + [day])[i] == days[i];
      }
    }
  }

  /** The break keeps the log invariant and the logged totals, adds a stop
      that is not a fuel stop and never makes a reset due. */
  lemma BreakKeeps(s: State)
    requires LogInv(s)
    ensures var r := EnforceBreak(s);
      && LogInv(r)
      && DrivingTime(AllEntries(r)) == DrivingTime(AllEntries(s))
      && OnDutyTime(AllEntries(r)) == OnDutyTime(AllEntries(s))
      && r.cycleHoursUsed == s.cycleHoursUsed
      && s.stops <= r.stops && CountKind(r.stops, FuelStop) == CountKind(s.stops, FuelStop)
      && (!ResetDue(s) ==> !ResetDue(r))
  {
    if BreakDue(s) {
      var e := BreakEntry(s);
      var a := AddEntry(s, e);
      var x := Stop(MandatoryThirtyMinBreak, s.currentTime, DurationMinutes(MandatoryBreakDurationMins));
      var r := a.(stops := a.stops + [x], currentTime := e.end,
                  lastBreakTakenTime := Some(e.end), drivingHoursSinceLastBreak := 0.0);
      assert EnforceBreak(s) == r;
      AddAtClock(s, e);
      OffDutyAfterAdd(s, e, a, x, r);
    }
  }

  /** An off-duty activity at the clock, recorded as stop `x`, that moves
      the clock to its end and sets the break state keeps the log invariant
      and the logged totals and makes no reset due. */
  lemma OffDutyAfterAdd(s: State, e: Entry, a: State, x: Stop, r: State)
    requires LogInv(s) && e.start == s.currentTime && e.start < e.end && e.status == OffDuty
    requires AddedAtClock(s, e, a)
    requires r == a.(stops := a.stops + [x], currentTime := e.end,
                     lastBreakTakenTime := r.lastBreakTakenTime,
                     drivingHoursSinceLastBreak := r.drivingHoursSinceLastBreak)
    requires x.kind != FuelStop
    ensures LogInv(r)
    ensures DrivingTime(AllEntries(r)) == DrivingTime(AllEntries(s))
    ensures OnDutyTime(AllEntries(r)) == OnDutyTime(AllEntries(s))
    ensures r.cycleHoursUsed == s.cycleHoursUsed
    ensures s.stops <= r.stops && CountKind(r.stops, FuelStop) == CountKind(s.stops, FuelStop)
    ensures !ResetDue(s) ==> !ResetDue(r)
  {
    SingleEntryTimes(e);
    InvAfterAdd(s, e, a, r);
    CountKindSnoc(s.stops, x, FuelStop);
  }

  /** A driving segment of length `available` logs exactly that much driving
      and adds it to every driving counter and to the cycle total. */
  lemma DriveKeeps(s: State, available: real)
    requires LogInv(s) && 0.0 < available <= SegmentDurationHours
    requires available <= MaxDrivingHoursDaily - s.currentDayDrivingHours
    ensures var r := DriveState(s, available);
      && LogInv(r)
      && DrivingTime(AllEntries(r)) == DrivingTime(AllEntries(s)) + available
      && OnDutyTime(AllEntries(r)) == OnDutyTime(AllEntries(s)) + available
      && r.cycleHoursUsed == s.cycleHoursUsed + available
      && r.stops == s.stops
  {
    var e := Entry(s.currentTime, s.currentTime + available, Driving, DrivingActivity(available));
    var a := AddEntry(s, e);
    var r := a.(currentTime := e.end,
                currentDayDrivingHours := a.currentDayDrivingHours + available,
                currentDayOnDutyHours := a.currentDayOnDutyHours + available,
                cycleHoursUsed := a.cycleHoursUsed + available,
                drivingHoursSinceLastBreak := a.drivingHoursSinceLastBreak + available);
    assert DriveState(s, available) == r;
    AddAtClock(s, e);
    DrivingAfterAdd(s, available, e, a, r);
  }

  /** A driving activity at the clock, with its hours credited to both day
      totals, to the cycle and to the driving since the break, keeps the log
      invariant as long as the day's driving stays within 11 h, and logs its
      length both as driving and on duty. */
  lemma DrivingAfterAdd(s: State, available: real, e: Entry, a: State, r: State)
    requires LogInv(s) && 0.0 < available <= SegmentDurationHours
    requires available <= MaxDrivingHoursDaily - s.currentDayDrivingHours
    requires e == Entry(s.currentTime, s.currentTime + available, Driving, DrivingActivity(available))
    requires AddedAtClock(s, e, a)
    requires r == a.(currentTime := e.end,
                     currentDayDrivingHours := a.currentDayDrivingHours + available,
                     currentDayOnDutyHours := a.currentDayOnDutyHours + available,
                     cycleHoursUsed := a.cycleHoursUsed + available,
                     drivingHoursSinceLastBreak := a.drivingHoursSinceLastBreak + available)
    ensures LogInv(r)
    ensures DrivingTime(AllEntries(r)) == DrivingTime(AllEntries(s)) + available
    ensures OnDutyTime(AllEntries(r)) == OnDutyTime(AllEntries(s)) + available
    ensures r.cycleHoursUsed == s.cycleHoursUsed + available
    ensures r.stops == s.stops
  {
    SingleEntryTimes(e);
    InvAfterAdd(s, e, a, r);
  }

  /** An on-duty (not driving) activity at the clock, recorded as stop `x`
      with its hours credited to the day's on-duty total and to the cycle,
      keeps the log invariant, logs no driving and logs its length on duty. */
  lemma OnDutyAfterAdd(s: State, e: Entry, a: State, x: Stop, r: State)
    requires LogInv(s) && e.start == s.currentTime && e.start < e.end && e.status == OnDutyNotDriving
    requires AddedAtClock(s, e, a)
    requires r == a.(stops := a.stops + [x], currentTime := e.end,
                     currentDayOnDutyHours := a.currentDayOnDutyHours + (e.end - e.start),
                     cycleHoursUsed := a.cycleHoursUsed + (e.end - e.start))
    ensures LogInv(r)
    ensures DrivingTime(AllEntries(r)) == DrivingTime(AllEntries(s))
    ensures OnDutyTime(AllEntries(r)) == OnDutyTime(AllEntries(s)) + (e.end - e.start)
    ensures r.cycleHoursUsed == s.cycleHoursUsed + (e.end - e.start)
    ensures r.stops == s.stops + [x]
  {
    SingleEntryTimes(e);
    InvAfterAdd(s, e, a, r);
  }

  /** A fuel stop lasts half an hour. */
  lemma FuelStopHours()
    ensures MinutesToHours(FuelStopDurationMins) == 0.5
  {
  }

  /** A fuel stop logs half an hour on duty and no driving, adds half an hour
      to the cycle total and records one fuel stop. */
  lemma FuelKeeps(s: State)
    requires LogInv(s)
    ensures var r := FuelState(s);
      && LogInv(r)
      && DrivingTime(AllEntries(r)) == DrivingTime(AllEntries(s))
      && OnDutyTime(AllEntries(r)) == OnDutyTime(AllEntries(s)) + 0.5
      && r.cycleHoursUsed == s.cycleHoursUsed + 0.5
      && s.stops <= r.stops
      && CountKind(r.stops, FuelStop) == CountKind(s.stops, FuelStop) + 1
  {
    var e := Entry(s.currentTime, s.currentTime + MinutesToHours(FuelStopDurationMins), OnDutyNotDriving, FuelingActivity);
    var x := Stop(FuelStop, s.currentTime, DurationMinutes(FuelStopDurationMins));
    var a := AddEntry(s, e);
    var r := a.(stops := a.stops + [x], currentTime := e.end,
                currentDayOnDutyHours := a.currentDayOnDutyHours + (e.end - e.start),
                cycleHoursUsed := a.cycleHoursUsed + (e.end - e.start));
    assert FuelState(s) == r;
    AddAtClock(s, e);
    OnDutyAfterAdd(s, e, a, x, r);
    CountKindSnoc(s.stops, x, FuelStop);
    FuelStopHours();
  }

  /** The dropoff logs one hour on duty and no driving, adds an hour to the
      cycle total and records the dropoff as the last stop. */
  lemma DropoffKeeps(s: State)
    requires LogInv(s)
    ensures var r := RecordDropoff(s);
      && LogInv(r)
      && DrivingTime(AllEntries(r)) == DrivingTime(AllEntries(s))
      && OnDutyTime(AllEntries(r)) == OnDutyTime(AllEntries(s)) + 1.0
      && r.cycleHoursUsed == s.cycleHoursUsed + 1.0
      && r.stops == s.stops + [Stop(Dropoff, s.currentTime, DurationHours(1.0))]
      && CountKind(r.stops, FuelStop) == CountKind(s.stops, FuelStop)
  {
    var e := Entry(s.currentTime, s.currentTime + 1.0, OnDutyNotDriving, DropoffActivity);
    var x := Stop(Dropoff, s.currentTime, DurationHours(1.0));
    var a := AddEntry(s, e);
    var r := a.(stops := a.stops + [x], currentTime := e.end,
                currentDayOnDutyHours := a.currentDayOnDutyHours + (e.end - e.start),
                cycleHoursUsed := a.cycleHoursUsed + (e.end - e.start));
    assert RecordDropoff(s) == r;
    AddAtClock(s, e);
    OnDutyAfterAdd(s, e, a, x, r);
    CountKindSnoc(s.stops, x, FuelStop);
  }

  /** The day lists of a state that keeps the log invariant: at least two,
      the first empty, no entry empty and no day over 11 h of driving. */
  lemma DayListsOfInv(s: State)
    requires LogInv(s)
    ensures var d := s.DailyLogs();
      && |d| >= 2 && d[0] == []
      && Positive(Flatten(d))
      && (forall i :: 0 <= i < |d| ==> DrivingTime(d[i]) <= MaxDrivingHoursDaily)
  {
    AllEntriesIsFlatten(s);
    var d := s.DailyLogs();
    assert d[0] == s.closedDays[0];
    forall i | 0 <= i < |d|
      ensures DrivingTime(d[i]) <= MaxDrivingHoursDaily
    {
      if i == |s.closedDays| {
        assert d[i] == s.currentDay;
      } else {
        assert d[i] == s.closedDays[i];
      }
    }
  }

  // ---------------------------------------------------------------- the loop invariant

  /** The invariant of the main loop of a trip that started at `startTime`
      with `initialCycle` hours on the cycle: the log invariant; the first
      stop is the pickup; the log holds exactly the hours driven so far; the
      cycle total is the initial total plus the logged on-duty hours, which
      are the pickup hour, the hours driven and half an hour per fuel stop. */
  predicate TripInv(t: Trip, startTime: real, initialCycle: real, totalDrivingHours: real) {
    var s := t.calculator;
    && LogInv(s)
    && s.stops != [] && s.stops[0] == Stop(Pickup, startTime, DurationHours(1.0))
    && DrivingTime(AllEntries(s)) == totalDrivingHours - t.remainingDrivingHours
    && s.cycleHoursUsed == initialCycle + OnDutyTime(AllEntries(s))
    && s.cycleHoursUsed
       == initialCycle + 1.0 + (totalDrivingHours - t.remainingDrivingHours) + 0.5 * CountKind(s.stops, FuelStop) as real
    && (totalDrivingHours >= 0.0 ==> t.remainingDrivingHours >= 0.0)
  }

  /** The pickup entry of a trip that starts at `startTime`. */
  function PickupEntry(startTime: real): Entry {
    Entry(startTime, startTime + 1.0, OnDutyNotDriving, PickupActivity)
  }

  /** The state of a fresh calculator after the pickup bookend
      (hos_calculator.py:135-141): the first day list stays empty and the
      pickup hour opens a second one; the clock and the cycle total move on
      by an hour, which is also the day's on-duty total; nothing has been
      driven and no break taken. */
  lemma PickupBookend(startTime: real, initialCycle: real)
    ensures var r := RecordPickup(Init(startTime, initialCycle));
      && r.closedDays == [[]] && r.currentDay == [PickupEntry(startTime)]
      && r.stops == [Stop(Pickup, startTime, DurationHours(1.0))]
      && r.currentTime == startTime + 1.0 && r.lastActivityEndTime == r.currentTime
      && r.cycleHoursUsed == initialCycle + 1.0
      && r.currentDayDrivingHours == 0.0 && r.currentDayOnDutyHours == 1.0
      && r.drivingHoursSinceLastBreak == 0.0 && r.lastBreakTakenTime == None
  {
    var s0 := Init(startTime, initialCycle);
    var e := PickupEntry(startTime);
    assert !GapDue(s0, e.start) && !RolloverDue(s0, e.end);
    var a := AddEntry(s0, e);
    var r := a.(currentTime := e.end, currentDayOnDutyHours := a.currentDayOnDutyHours + 1.0,
                cycleHoursUsed := a.cycleHoursUsed + 1.0,
                stops := a.stops + [Stop(Pickup, startTime, DurationHours(1.0))]);
    assert RecordPickup(s0) == r;
    AddWithoutGap(s0, e);
    assert a.closedDays == [[]] && a.currentDay == [e];
  }

  /** The pickup of a fresh calculator starts the invariant. */
  lemma PickupStartsRun(startTime: real, initialCycle: real, totalDrivingHours: real)
    ensures TripInv(Trip(RecordPickup(Init(startTime, initialCycle)), totalDrivingHours, 0.0, 0.0),
                    startTime, initialCycle, totalDrivingHours)
  {
    var r := RecordPickup(Init(startTime, initialCycle));
    var e := PickupEntry(startTime);
    PickupBookend(startTime, initialCycle);
    assert Flatten([[]]) == [] by {
      FlattenSnoc([], []);
    }
    assert AllEntries(r) == [e];
    SingleEntryTimes(e);
    CountKindSnoc([], Stop(Pickup, startTime, DurationHours(1.0)), FuelStop);
    assert DrivingTime([]) == 0.0;
  }

  /** The reset and the break at the head of an iteration
      (hos_calculator.py:146-148) keep the invariant, and leave no reset due. */
  lemma EnforceKeepsTrip(t: Trip, startTime: real, initialCycle: real, totalDrivingHours: real)
    requires TripInv(t, startTime, initialCycle, totalDrivingHours)
    ensures var s := EnforceBreak(EnforceReset(t.calculator));
      TripInv(t.(calculator := s), startTime, initialCycle, totalDrivingHours) && !ResetDue(s)
  {
    ResetKeeps(t.calculator);
    BreakKeeps(EnforceReset(t.calculator));
  }

  /** A driving segment that fits the day (hos_calculator.py:165-180) keeps
      the invariant. */
  lemma DriveKeepsTrip(t: Trip, available: real, startTime: real, initialCycle: real,
                       totalDrivingHours: real, totalDistanceMiles: real)
    requires TripInv(t, startTime, initialCycle, totalDrivingHours)
    requires 0.0 < available <= SegmentDurationHours && available <= t.remainingDrivingHours
    requires available <= MaxDrivingHoursDaily - t.calculator.currentDayDrivingHours
    ensures TripInv(DriveSegment(t, available, totalDrivingHours, totalDistanceMiles), startTime, initialCycle, totalDrivingHours)
  {
    DriveKeeps(t.calculator, available);
  }

  /** The fuel check (hos_calculator.py:182-190) keeps the invariant. */
  lemma FuelKeepsTrip(t: Trip, startTime: real, initialCycle: real, totalDrivingHours: real)
    requires TripInv(t, startTime, initialCycle, totalDrivingHours)
    ensures TripInv(FuelCheck(t), startTime, initialCycle, totalDrivingHours)
    ensures FuelCheck(t).remainingDrivingHours == t.remainingDrivingHours
  {
    if t.milesDrivenSinceLastFuel >= FuelStopIntervalMiles {
      FuelKeeps(t.calculator);
    }
  }

  /** One iteration of the main loop keeps the invariant. */
  lemma StepKeeps(t: Trip, startTime: real, initialCycle: real, totalDrivingHours: real, totalDistanceMiles: real)
    requires TripInv(t, startTime, initialCycle, totalDrivingHours) && t.remainingDrivingHours > Epsilon
    ensures TripInv(Step(t, totalDrivingHours, totalDistanceMiles), startTime, initialCycle, totalDrivingHours)
  {
    var s2 := EnforceBreak(EnforceReset(t.calculator));
    EnforceKeepsTrip(t, startTime, initialCycle, totalDrivingHours);
    var available := AvailableDriving(t.remainingDrivingHours, SegmentDurationHours,
                                      s2.currentDayDrivingHours, s2.currentDayOnDutyHours, s2.cycleHoursUsed);
    if available <= Epsilon {
      ResetRule(s2);
      assert Step(t, totalDrivingHours, totalDistanceMiles) == t.(calculator := s2);
    } else {
      var d := DriveSegment(t.(calculator := s2), available, totalDrivingHours, totalDistanceMiles);
      DriveKeepsTrip(t.(calculator := s2), available, startTime, initialCycle, totalDrivingHours, totalDistanceMiles);
      FuelKeepsTrip(d, startTime, initialCycle, totalDrivingHours);
      assert Step(t, totalDrivingHours, totalDistanceMiles) == FuelCheck(d);
    }
  }

  /** Every run of the main loop, however many iterations it is given, keeps
      the invariant. */
  lemma {:induction false} RunKeeps(t: Trip, startTime: real, initialCycle: real, totalDrivingHours: real,
                                    totalDistanceMiles: real, maxIterations: nat)
    requires TripInv(t, startTime, initialCycle, totalDrivingHours)
    ensures TripInv(Run(t, totalDrivingHours, totalDistanceMiles, maxIterations), startTime, initialCycle, totalDrivingHours)
    decreases maxIterations
  {
    if t.remainingDrivingHours > Epsilon && maxIterations > 0 {
      var next := Step(t, totalDrivingHours, totalDistanceMiles);
      assert Run(t, totalDrivingHours, totalDistanceMiles, maxIterations)
          == Run(next, totalDrivingHours, totalDistanceMiles, maxIterations - 1);
      StepKeeps(t, startTime, initialCycle, totalDrivingHours, totalDistanceMiles);
      RunKeeps(next, startTime, initialCycle, totalDrivingHours, totalDistanceMiles, maxIterations - 1);
    }
  }

  // ---------------------------------------------------------------- a completed trip

  /** What `calculate_trip_logs` returns when its main loop finishes:
      the first day list is empty and a later one exists; the stops begin
      with the pickup at the start time and end with a dropoff; no entry is
      empty; no day list holds more than 11 h of driving; the log holds all
      the requested driving, to within 0.001 h and never more; and the final
      cycle total is the initial one plus the logged on-duty hours, which are
      the two one-hour bookends, the hours driven and half an hour per fuel
      stop. */
  lemma CompletedTrip(startTime: real, totalDrivingHours: real, totalDistanceMiles: real,
                      initialCycle: real, maxIterations: nat)
    requires CalculateTripLogs(startTime, totalDrivingHours, totalDistanceMiles, initialCycle, maxIterations).Some?
    ensures var l := CalculateTripLogs(startTime, totalDrivingHours, totalDistanceMiles, initialCycle, maxIterations).value;
      var driven := DrivingTime(Flatten(l.dailyLogs));
      && |l.dailyLogs| >= 2 && l.dailyLogs[0] == []
      && |l.stops| >= 2 && l.stops[0] == Stop(Pickup, startTime, DurationHours(1.0)) && Last(l.stops).kind == Dropoff
      && Positive(Flatten(l.dailyLogs))
      && (forall i :: 0 <= i < |l.dailyLogs| ==> DrivingTime(l.dailyLogs[i]) <= MaxDrivingHoursDaily)
      && totalDrivingHours - Epsilon <= driven
      && (totalDrivingHours >= 0.0 ==> driven <= totalDrivingHours)
      && l.finalCycleUsedHours == initialCycle + OnDutyTime(Flatten(l.dailyLogs))
      && l.finalCycleUsedHours == initialCycle + 2.0 + driven + 0.5 * CountKind(l.stops, FuelStop) as real
  {
    var started := Trip(RecordPickup(Init(startTime, initialCycle)), totalDrivingHours, 0.0, 0.0);
    PickupStartsRun(startTime, initialCycle, totalDrivingHours);
    var t := Run(started, totalDrivingHours, totalDistanceMiles, maxIterations);
    RunKeeps(started, startTime, initialCycle, totalDrivingHours, totalDistanceMiles, maxIterations);
    assert t.remainingDrivingHours <= Epsilon;
    var f := RecordDropoff(t.calculator);
    assert CalculateTripLogs(startTime, totalDrivingHours, totalDistanceMiles, initialCycle, maxIterations).value
        == TripLogs(f.DailyLogs(), f.stops, f.cycleHoursUsed);
    DropoffKeeps(t.calculator);
    DayListsOfInv(f);
  }

  /** A trip with no driving to do (at most 0.001 h) skips the main loop
      (hos_calculator.py:145) and completes, for every bound: its stops are
      the pickup at the start time and the dropoff an hour later, the log
      holds no driving, and the cycle total grows by the two bookend hours. */
  lemma NoDrivingTrip(startTime: real, totalDrivingHours: real, totalDistanceMiles: real,
                      initialCycle: real, maxIterations: nat)
    requires totalDrivingHours <= Epsilon
    ensures var r := CalculateTripLogs(startTime, totalDrivingHours, totalDistanceMiles, initialCycle, maxIterations);
      && r.Some?
      && r.value.stops == [Stop(Pickup, startTime, DurationHours(1.0)), Stop(Dropoff, startTime + 1.0, DurationHours(1.0))]
      && DrivingTime(Flatten(r.value.dailyLogs)) == 0.0
      && r.value.finalCycleUsedHours == initialCycle + 2.0
  {
    var s := RecordPickup(Init(startTime, initialCycle));
    var started := Trip(s, totalDrivingHours, 0.0, 0.0);
    var f := RecordDropoff(s);
    assert Run(started, totalDrivingHours, totalDistanceMiles, maxIterations) == started;
    assert CalculateTripLogs(startTime, totalDrivingHours, totalDistanceMiles, initialCycle, maxIterations)
        == Some(TripLogs(f.DailyLogs(), f.stops, f.cycleHoursUsed));
    PickupStartsRun(startTime, initialCycle, totalDrivingHours);
    DropoffFacts(s, f);
    PickupBookend(startTime, initialCycle);
  }

  /** What the dropoff keeps of a run with no driving in its log. */
  lemma DropoffFacts(s: State, f: State)
    requires LogInv(s) && DrivingTime(AllEntries(s)) == 0.0 && f == RecordDropoff(s)
    ensures DrivingTime(Flatten(f.DailyLogs())) == 0.0
    ensures f.stops == s.stops + [Stop(Dropoff, s.currentTime, DurationHours(1.0))]
    ensures f.cycleHoursUsed == s.cycleHoursUsed + 1.0
  {
    DropoffKeeps(s);
    AllEntriesIsFlatten(f);
  }
}
