/** Facts about the log writer (`_add_log_entry_internal` and `_add_log_entry`):
    what an add writes, where it writes it, and what it does to the per-day
    accumulators. */
module HosLogFacts {
  import opened Wrappers
  import opened HosRules

  // ---------------------------------------------------------------- measures of a log

  /** All entries of all days, in order. */
  function Flatten(days: seq<seq<Entry>>): seq<Entry>
  {
    if days == [] then [] else Flatten(days[..|days| - 1]) + Last(days)
  }

  lemma FlattenSnoc(days: seq<seq<Entry>>, day: seq<Entry>)
    ensures Flatten(days + [day]) == Flatten(days) + day
  {
    assert (days + [day])[..|days|] == days;
  }

  /** Nothing already written is changed from `s` to `r`: the closed day
      lists are kept and the current one is only extended at its end, or is
      closed and followed by new ones.  The clock, the cycle total and the
      stops are untouched. */
  predicate LogGrowth(s: State, r: State) {
    && r.currentTime == s.currentTime && r.cycleHoursUsed == s.cycleHoursUsed && r.stops == s.stops
    && AllEntries(s) <= AllEntries(r)
    && s.closedDays <= r.closedDays
  }

  /** The per-day accumulators and the break state of `r` are those of `s`. */
  predicate SameDayAccumulators(s: State, r: State) {
    && r.currentDayDrivingHours == s.currentDayDrivingHours
    && r.currentDayOnDutyHours == s.currentDayOnDutyHours
    && r.drivingHoursSinceLastBreak == s.drivingHoursSinceLastBreak
    && r.lastBreakTakenTime == s.lastBreakTakenTime
  }

  /** The per-day accumulators and the break state of `r` are cleared. */
  predicate ClearedDayAccumulators(r: State) {
    && r.currentDayDrivingHours == 0.0
    && r.currentDayOnDutyHours == 0.0
    && r.drivingHoursSinceLastBreak == 0.0
    && r.lastBreakTakenTime == None
  }


  /** Every entry of the log, day list after day list. */
  function AllEntries(s: State): seq<Entry> {
    Flatten(s.closedDays) + s.currentDay
  }

  lemma AllEntriesIsFlatten(s: State)
    ensures AllEntries(s) == Flatten(s.DailyLogs())
  {
    FlattenSnoc(s.closedDays, s.currentDay);
  }

  /** The hours the entries of `es` spend in one of `statuses`. */
  function TimeIn(es: seq<Entry>, statuses: set<Status>): real
  {
    if es == [] then 0.0
    else TimeIn(es[..|es| - 1], statuses) + (if Last(es).status in statuses then Last(es).end - Last(es).start else 0.0)
  }

  /** Hours logged as driving. */
  function DrivingTime(es: seq<Entry>): real { TimeIn(es, {Driving}) }

  /** Hours logged as on duty, driving or not. */
  function OnDutyTime(es: seq<Entry>): real { TimeIn(es, {Driving, OnDutyNotDriving}) }

  lemma {:induction false} TimeInAppend(a: seq<Entry>, b: seq<Entry>, statuses: set<Status>)
    ensures TimeIn(a + b, statuses) == TimeIn(a, statuses) + TimeIn(b, statuses)
    decreases |b|
  {
    if b == [] {
      assert a + b == a;
    } else {
      var b' := b[..|b| - 1];
      assert (a + b)[..|a + b| - 1] == a + b';
      assert Last(a + b) == Last(b);
      TimeInAppend(a, b', statuses);
    }
  }

  lemma DayTimesAppend(a: seq<Entry>, b: seq<Entry>)
    ensures DrivingTime(a + b) == DrivingTime(a) + DrivingTime(b)
    ensures OnDutyTime(a + b) == OnDutyTime(a) + OnDutyTime(b)
  {
    TimeInAppend(a, b, {Driving});
    TimeInAppend(a, b, {Driving, OnDutyNotDriving});
  }

  /** No entry of `es` is empty or runs backwards. */
  predicate Positive(es: seq<Entry>) {
    forall i :: 0 <= i < |es| ==> es[i].start < es[i].end
  }

  lemma PositiveAppend(a: seq<Entry>, b: seq<Entry>)
    requires Positive(a) && Positive(b)
    ensures Positive(a + b)
  {
    forall i | 0 <= i < |a + b|
      ensures (a + b)[i].start < (a + b)[i].end
    {
      if i >= |a| {
        assert (a + b)[i] == b[i - |a|];
      }
    }
  }

  // ---------------------------------------------------------------- the writer

  /** What `_add_log_entry` writes for a non-empty entry, in order: the gap
      filler if one is due, the end-of-day filler if the entry rolls the day
      over, then the entry itself. */
  function Written(s: State, e: Entry): seq<Entry>
  {
    var f := FillGap(s, e.start);
    (if GapDue(s, e.start) then [GapEntry(s, e.start)] else [])
    + (if RolloverDue(f, e.end) then [BoundaryEntry(Last(f.currentDay).end)] else [])
    + [e]
  }

  /** An entry with `start >= end` is dropped by both writers and changes no
      field (hos_calculator.py:40-41, 53-54). */
  lemma EmptyEntryIgnored(s: State, e: Entry)
    requires e.start >= e.end
    ensures AddEntryInternal(s, e) == s
    ensures AddEntry(s, e) == s
  {
  }

  /** `_add_log_entry_internal` appends a non-empty entry to the last day list
      and moves the end of the last activity to its end
      (hos_calculator.py:43-49). */
  lemma AddEntryInternalAppends(s: State, e: Entry)
    requires e.start < e.end
    ensures AddEntryInternal(s, e).closedDays == s.closedDays
    ensures AddEntryInternal(s, e).currentDay == s.currentDay + [e]
    ensures AllEntries(AddEntryInternal(s, e)) == AllEntries(s) + [e]
    ensures AddEntryInternal(s, e).lastActivityEndTime == e.end
    ensures SameDayAccumulators(s, AddEntryInternal(s, e))
    ensures LogGrowth(s, AddEntryInternal(s, e))
  {
  }

  /** The gap filler (hos_calculator.py:61-64): exactly when the last day list
      is non-empty and the new entry starts more than 0.001 h after the end
      of the last activity, an off-duty entry covering the gap is appended. */
  lemma GapFilling(s: State, start: real)
    ensures s.currentDay != [] && start - s.lastActivityEndTime > Epsilon ==>
      && FillGap(s, start).currentDay
         == s.currentDay + [Entry(s.lastActivityEndTime, start, OffDuty, ImplicitGap(start - s.lastActivityEndTime))]
      && FillGap(s, start).lastActivityEndTime == start
      && FillGap(s, start) == s.(currentDay := FillGap(s, start).currentDay, lastActivityEndTime := start)
    ensures !(s.currentDay != [] && start - s.lastActivityEndTime > Epsilon) ==> FillGap(s, start) == s
  {
  }

  /** Closing the current day (hos_calculator.py:69-81): the day list is
      closed after an off-duty filler that runs from the end of its last
      entry to the next midnight, an empty day list is opened, the per-day
      accumulators and the break state are cleared and the end of the last
      activity is set back to the clock. */
  lemma CloseDayEffect(s: State)
    requires s.currentDay != []
    ensures var r := CloseDay(s); var b := BoundaryEntry(Last(s.currentDay).end);
      && r.closedDays == s.closedDays + [s.currentDay + [b]]
      && r.currentDay == []
      && AllEntries(r) == AllEntries(s) + [b]
      && b.start < b.end && Date(b.end) == Date(b.start) + 1
      && ClearedDayAccumulators(r)
      && r.currentTime == s.currentTime && r.cycleHoursUsed == s.cycleHoursUsed && r.stops == s.stops
      && r.lastActivityEndTime == s.currentTime
  {
    var b := BoundaryEntry(Last(s.currentDay).end);
    NextMidnightFacts(b.start);
    FlattenSnoc(s.closedDays, s.currentDay + [b]);
  }

  /** The second half of `_add_log_entry` before the final add
      (hos_calculator.py:67-86). */
  lemma PrepareDayEffect(s: State, end: real)
    ensures RolloverDue(s, end) ==>
      var r := PrepareDay(s, end); var b := BoundaryEntry(Last(s.currentDay).end);
      && r.closedDays == s.closedDays + [s.currentDay + [b], []]
      && r.currentDay == []
      && AllEntries(r) == AllEntries(s) + [b]
      && b.start < b.end && Date(b.end) == Date(b.start) + 1
      && ClearedDayAccumulators(r)
      && r.currentTime == s.currentTime && r.cycleHoursUsed == s.cycleHoursUsed && r.stops == s.stops
    ensures !RolloverDue(s, end) && s.currentDay == [] ==>
      PrepareDay(s, end) == s.(closedDays := s.closedDays + [[]]) && AllEntries(PrepareDay(s, end)) == AllEntries(s)
    ensures !RolloverDue(s, end) && s.currentDay != [] ==> PrepareDay(s, end) == s
  {
    if RolloverDue(s, end) {
      var c := CloseDay(s);
      CloseDayEffect(s);
      FlattenSnoc(c.closedDays, []);
      assert PrepareDay(s, end) == c.OpenNewDay();
    } else if s.currentDay == [] {
      FlattenSnoc(s.closedDays, []);
    }
  }

  /** The day rollover of hos_calculator.py:67-81 and the add at line 88: when
      the entry ends on a later date than the last entry of the (gap-filled)
      current day, that day is closed with an off-duty filler up to the next
      midnight, an empty day list follows it (lines 75 and 85-86 both
      append), the entry starts the day list after that, and the per-day
      accumulators and the break state are cleared.  Otherwise nothing is
      cleared and the entry joins the current day list, or a fresh one when
      the current one is empty. */
  lemma DayRollover(s: State, e: Entry)
    requires e.start < e.end
    ensures var f := FillGap(s, e.start); var r := AddEntry(s, e);
      RolloverDue(f, e.end) ==>
        var lastEnd := Last(f.currentDay).end;
        && r.closedDays == f.closedDays + [f.currentDay + [Entry(lastEnd, NextMidnight(lastEnd), OffDuty, EndOfDayBoundary)], []]
        && lastEnd < NextMidnight(lastEnd) && Date(NextMidnight(lastEnd)) == Date(lastEnd) + 1
        && r.currentDay == [e]
        && ClearedDayAccumulators(r)
    ensures var f := FillGap(s, e.start); var r := AddEntry(s, e);
      !RolloverDue(f, e.end) ==>
        && SameDayAccumulators(s, r)
        && (f.currentDay != [] ==> r.closedDays == f.closedDays && r.currentDay == f.currentDay + [e])
        && (f.currentDay == [] ==> r.closedDays == f.closedDays + [[]] && r.currentDay == [e])
  {
    var f := FillGap(s, e.start);
    GapFilling(s, e.start);
    PrepareDayEffect(f, e.end);
    assert AddEntry(s, e) == AddEntryInternal(PrepareDay(f, e.end), e);
  }

  /** The log grows by exactly `Written(s, e)`. */
  lemma AddEntryLog(s: State, e: Entry)
    requires e.start < e.end
    ensures AllEntries(AddEntry(s, e)) == AllEntries(s) + Written(s, e)
  {
    var f := FillGap(s, e.start);
    GapFilling(s, e.start);
    var g: seq<Entry> := if GapDue(s, e.start) then [GapEntry(s, e.start)] else [];
    assert AllEntries(f) == AllEntries(s) + g;
    var p := PrepareDay(f, e.end);
    PrepareDayEffect(f, e.end);
    var bd: seq<Entry> := if RolloverDue(f, e.end) then [BoundaryEntry(Last(f.currentDay).end)] else [];
    assert AllEntries(p) == AllEntries(f) + bd;
    assert AddEntry(s, e) == AddEntryInternal(p, e);
    assert AllEntries(AddEntryInternal(p, e)) == AllEntries(p) + [e];
    assert Written(s, e) == g + bd + [e];
    assert AllEntries(s) + g + bd + [e] == AllEntries(s) + (g + bd + [e]);
  }

  /** Every entry `_add_log_entry` writes is non-empty: the entry itself,
      the gap filler (it is only written for a gap of more than 0.001 h)
      and the end-of-day filler (the next midnight is after any time). */
  lemma WrittenPositive(s: State, e: Entry)
    requires e.start < e.end
    ensures Positive(Written(s, e))
  {
    var f := FillGap(s, e.start);
    if RolloverDue(f, e.end) {
      NextMidnightFacts(Last(f.currentDay).end);
    }
    var w := Written(s, e);
    forall i | 0 <= i < |w|
      ensures w[i].start < w[i].end
    {
    }
  }

  /** The overall effect of `_add_log_entry` on a non-empty entry: the log
      grows by exactly `Written(s, e)`, whose entries are all non-empty; the
      entry ends the last day list; the end of the last activity is the
      entry's end; the clock, the cycle total, the stops and the closed day
      lists already written are untouched; and the per-day accumulators are
      either kept or cleared. */
  lemma AddEntryEffect(s: State, e: Entry)
    requires e.start < e.end
    ensures var r := AddEntry(s, e);
      && AllEntries(r) == AllEntries(s) + Written(s, e)
      && Positive(Written(s, e))
      && r.currentDay != [] && Last(r.currentDay) == e
      && r.lastActivityEndTime == e.end
      && LogGrowth(s, r)
      && (SameDayAccumulators(s, r) || ClearedDayAccumulators(r))
  {
    var f := FillGap(s, e.start);
    GapFilling(s, e.start);
    PrepareDayEffect(f, e.end);
    AddEntryLog(s, e);
    WrittenPositive(s, e);
    DayRollover(s, e);
  }

  /** The shape of an add that fills no gap, as a relation between the state
      `s` before and the state `a` after: on a rollover the current day list
      is closed after the end-of-day filler, an empty list follows and the
      entry starts the next one, with the accumulators cleared; otherwise
      the entry joins the current day list (a fresh list is opened first
      when the current one is empty) and nothing is cleared. */
  predicate AppendedWithoutGap(s: State, e: Entry, a: State) {
    && a.currentTime == s.currentTime && a.cycleHoursUsed == s.cycleHoursUsed && a.stops == s.stops
    && a.lastActivityEndTime == e.end
    && (RolloverDue(s, e.end) ==>
          var b := BoundaryEntry(Last(s.currentDay).end);
          && a.closedDays == s.closedDays + [s.currentDay + [b], []] && a.currentDay == [e]
          && AllEntries(a) == AllEntries(s) + [b, e]
          && b.start < b.end && b.status == OffDuty
          && ClearedDayAccumulators(a))
    && (!RolloverDue(s, e.end) ==>
          && a.currentDay == s.currentDay + [e]
          && (if s.currentDay == [] then a.closedDays == s.closedDays + [[]] else a.closedDays == s.closedDays)
          && AllEntries(a) == AllEntries(s) + [e]
          && SameDayAccumulators(s, a))
  }

  /** An add whose entry starts no later than 0.001 h after the last
      activity fills no gap and has the shape above. */
  lemma AddWithoutGap(s: State, e: Entry)
    requires e.start < e.end && !GapDue(s, e.start)
    ensures AppendedWithoutGap(s, e, AddEntry(s, e))
  {
    GapFilling(s, e.start);
    assert FillGap(s, e.start) == s;
    var p := PrepareDay(s, e.end);
    PrepareDayEffect(s, e.end);
    var r := AddEntry(s, e);
    assert r == p.(currentDay := p.currentDay + [e], lastActivityEndTime := e.end);
    assert AllEntries(r) == AllEntries(p) + [e];
  }

  /** `_add_log_entry` leaves the clock, the cycle total and the stops alone. */
  lemma AddEntryFrame(s: State, e: Entry)
    ensures var r := AddEntry(s, e);
      r.currentTime == s.currentTime && r.cycleHoursUsed == s.cycleHoursUsed && r.stops == s.stops
  {
    if e.start < e.end {
      var f := FillGap(s, e.start);
      assert f.currentTime == s.currentTime && f.cycleHoursUsed == s.cycleHoursUsed && f.stops == s.stops;
      var p := PrepareDay(f, e.end);
      assert p.currentTime == s.currentTime && p.cycleHoursUsed == s.cycleHoursUsed && p.stops == s.stops;
    }
  }
}
