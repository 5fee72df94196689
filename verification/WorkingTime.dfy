/** What the projected slots of a day mean on the local clock: when every instant of every slot
    is working time and no break, and exactly when some slot is not. */
module WorkingTime {
  import opened Basics
  import opened TimeZones
  import opened MinuteRanges
  import opened Boundaries
  import opened ScheduleProjection

  function MinuteOfDay(z: Zone, u: int): int { Reading(z, u) % DAY / MINUTE }

  ghost predicate BoundariesClear(staff: Staff, z: Zone, date: int) {
    forall range :: range in EffectiveRanges(staff, date) ==> BoundsClear(z, date, range)
  }

  /** No wall reading of the date, or of the three hours a boundary may be shifted into the
      next one, is shown twice. */
  ghost predicate NoRepeatedHour(z: Zone, date: int) {
    forall w :: date * DAY <= w < (date + 1) * DAY + MAX_SHIFT * MINUTE ==> !Repeated(z, w)
  }

  lemma NoRepeatedHourIsClear(staff: Staff, z: Zone, date: int)
    requires Regular(z) && WholeMinutes(z) && NoRepeatedHour(z, date)
    ensures BoundariesClear(staff, z, date)
  {
    forall range | range in EffectiveRanges(staff, date) && Resolved(z, date, range)
      ensures BoundsClear(z, date, range)
    {
      var start := ResolveExact(z, Naive(date, range.start), 0, false);
      var end := ResolveExact(z, Naive(date, range.end), 0, true);
      NaiveIsLinear(date, range.start);
      NaiveIsLinear(date, range.end);
      UnrepeatedIsClear(z, date, range);
    }
  }

  /** A minute of the date, in the terms of the clock. */
  lemma ShownMinute(z: Zone, date: int, minute: int, u: int)
    requires 0 <= minute < 1440
    ensures ShowsMinute(z, date, minute, u) <==> LocalDate(z, u) == date && MinuteOfDay(z, u) == minute
  {
    DayAndMinute(Reading(z, u), date, minute);
  }

  lemma DayAndMinute(wall: int, date: int, minute: int)
    requires 0 <= minute < 1440
    ensures MinuteAt(date, minute) <= wall < MinuteAt(date, minute + 1) <==>
              wall / DAY == date && wall % DAY / MINUTE == minute
  {
    var inDay := wall - date * DAY;
    if MinuteAt(date, minute) <= wall < MinuteAt(date, minute + 1) {
      assert wall / DAY == date && wall % DAY == inDay;
    }
    if wall / DAY == date && wall % DAY / MINUTE == minute {
      assert wall % DAY == inDay;
      assert inDay == inDay / MINUTE * MINUTE + inDay % MINUTE;
    }
  }

  lemma WithinIsShown(z: Zone, date: int, range: LocalMinuteRange, u: int)
    requires ReadsWithin(z, date, range, u)
    ensures LocalDate(z, u) == date && range.Covers(MinuteOfDay(z, u))
  {
    var minute := Reading(z, u) / MINUTE - date * 1440;
    assert Reading(z, u) == Reading(z, u) / MINUTE * MINUTE + Reading(z, u) % MINUTE;
    ShownMinute(z, date, minute, u);
  }

  /** The slot is the k-th grid point of the range, fits into it and is free. */
  ghost predicate Offers(staff: Staff, z: Zone, date: int, now: int, step: int, range: LocalMinuteRange, k: nat,
                         slot: Slot)
  {
    && Resolved(z, date, range)
    && slot.staffId == staff.id && slot.staffName == staff.displayName
    && slot.startAt == StartOf(z, date, range) + k * step
    && slot.endAt == slot.startAt + staff.durationMinutes * MINUTE && slot.endAt <= EndOf(z, date, range)
    && slot.localStart == LocalTime(Reading(z, slot.startAt), FoldAt(z, slot.startAt))
    && slot.localEnd == LocalTime(Reading(z, slot.endAt), FoldAt(z, slot.endAt))
    && now < slot.startAt && (staff.pausedUntil.Some? ==> staff.pausedUntil.value <= slot.startAt)
    && forall b :: b in staff.busyPeriods ==> slot.endAt <= b.startAt || b.endAt <= slot.startAt
  }

  /** ... which is what the slot loop tests. */
  lemma OffersIff(staff: Staff, z: Zone, date: int, now: int, step: int, range: LocalMinuteRange, k: nat, slot: Slot)
    requires Resolved(z, date, range)
    ensures Offers(staff, z, date, now, step, range, k, slot) <==>
            var point := GridPoint(StartOf(z, date, range), step, k);
            && slot == SlotAt(staff, z, point) && point + staff.durationMinutes * MINUTE <= EndOf(z, date, range)
            && Bookable(staff, now, point)
  {
    hide ResolveFrom, Reading, FoldAt;
  }

  lemma RangeOffers(staff: Staff, z: Zone, date: int, now: int, step: int, range: LocalMinuteRange, slot: Slot)
    requires step > 0 && Resolved(z, date, range)
    ensures slot in RangeSlots(staff, z, now, step, StartOf(z, date, range), EndOf(z, date, range)) <==>
            exists k: nat :: Offers(staff, z, date, now, step, range, k, slot)
  {
    var start, end := StartOf(z, date, range), EndOf(z, date, range);
    RangeSlotsExact(staff, z, now, step, start, end);
    forall k: nat ensures Offers(staff, z, date, now, step, range, k, slot) <==>
      (slot == SlotAt(staff, z, GridPoint(start, step, k))
       && GridPoint(start, step, k) + staff.durationMinutes * MINUTE <= end
       && Bookable(staff, now, GridPoint(start, step, k)))
    {
      OffersIff(staff, z, date, now, step, range, k, slot);
    }
    hide ResolveFrom, RangeSlots, SlotAt, Bookable, Offers;
    if slot in RangeSlots(staff, z, now, step, start, end) {
      var k: nat :| slot == SlotAt(staff, z, GridPoint(start, step, k))
                    && GridPoint(start, step, k) + staff.durationMinutes * MINUTE <= end
                    && Bookable(staff, now, GridPoint(start, step, k));
      assert Offers(staff, z, date, now, step, range, k, slot);
    }
    if k: nat :| Offers(staff, z, date, now, step, range, k, slot) {
      assert slot == SlotAt(staff, z, GridPoint(start, step, k));
    }
  }

  ghost predicate OffersSome(staff: Staff, z: Zone, date: int, now: int, step: int, ranges: seq<LocalMinuteRange>,
                             slot: Slot)
  {
    exists range, k: nat :: range in ranges && Offers(staff, z, date, now, step, range, k, slot)
  }

  lemma {:induction false} SlotsOfResolves(staff: Staff, z: Zone, date: int, now: int, step: int,
                                           ranges: seq<LocalMinuteRange>)
    requires step > 0
    ensures SlotsOf(staff, z, date, now, step, ranges).Ok? <==>
              forall range :: range in ranges ==> Resolved(z, date, range)
  {
    hide ResolveFrom, RangeSlots, Naive;
    if ranges != [] {
      var front, last := ranges[..|ranges| - 1], ranges[|ranges| - 1];
      SlotsOfResolves(staff, z, date, now, step, front);
      assert SlotsOf(staff, z, date, now, step, ranges).Ok? <==>
             SlotsOf(staff, z, date, now, step, front).Ok? && Resolved(z, date, last);
      hide Resolved, SlotsOf;
      assert ranges == front + [last];
    }
  }

  lemma OffersLast(staff: Staff, z: Zone, date: int, now: int, step: int, front: seq<LocalMinuteRange>,
                   last: LocalMinuteRange, slot: Slot)
    requires step > 0 && Resolved(z, date, last)
    ensures OffersSome(staff, z, date, now, step, front + [last], slot) <==>
              OffersSome(staff, z, date, now, step, front, slot)
              || slot in RangeSlots(staff, z, now, step, StartOf(z, date, last), EndOf(z, date, last))
  {
    RangeOffers(staff, z, date, now, step, last, slot);
    hide ResolveFrom, RangeSlots, Offers;
    assert forall range :: range in front + [last] <==> range in front || range == last;
    if k: nat :| Offers(staff, z, date, now, step, last, k, slot) {
      assert last in front + [last];
    }
  }

  lemma {:induction false} SlotsOfExact(staff: Staff, z: Zone, date: int, now: int, step: int,
                                        ranges: seq<LocalMinuteRange>, slot: Slot)
    requires step > 0 && SlotsOf(staff, z, date, now, step, ranges).Ok?
    ensures slot in SlotsOf(staff, z, date, now, step, ranges).value <==>
              OffersSome(staff, z, date, now, step, ranges, slot)
  {
    if ranges != [] {
      var front, last := ranges[..|ranges| - 1], ranges[|ranges| - 1];
      assert ranges == front + [last];
      SlotsOfExact(staff, z, date, now, step, front, slot);
      hide ResolveFrom, RangeSlots, OffersSome;
      OffersLast(staff, z, date, now, step, front, last, slot);
    }
  }

  /** A master's day is complete: it fails exactly when a boundary of an effective range does not
      resolve, and else offers exactly the free grid points of the effective ranges. */
  lemma StaffDayExact(staff: Staff, z: Zone, date: int, now: int, stepMinutes: SlotStep)
    ensures var day := StaffDay(staff, z, date, now, stepMinutes);
            && (day.Ok? <==> forall range :: range in EffectiveRanges(staff, date) ==> Resolved(z, date, range))
            && (day.Ok? ==> forall slot :: slot in day.value <==>
                  OffersSome(staff, z, date, now, stepMinutes * MINUTE, EffectiveRanges(staff, date), slot))
  {
    var ranges := EffectiveRanges(staff, date);
    SlotsOfResolves(staff, z, date, now, stepMinutes * MINUTE, ranges);
    hide OffersSome, EffectiveRanges, SlotsOf, Resolved;
    if StaffDay(staff, z, date, now, stepMinutes).Ok? {
      forall slot ensures slot in StaffDay(staff, z, date, now, stepMinutes).value <==>
        OffersSome(staff, z, date, now, stepMinutes * MINUTE, ranges, slot)
      {
        SlotsOfExact(staff, z, date, now, stepMinutes * MINUTE, ranges, slot);
      }
    }
  }

  // ---------------------------------------------------------------------------
  // What slots mean on the clock

  /** A slot lies between the resolved boundaries of its range. */
  lemma OfferedWithin(staff: Staff, z: Zone, date: int, now: int, step: int, range: LocalMinuteRange, k: nat,
                      slot: Slot, u: int)
    requires step > 0 && Offers(staff, z, date, now, step, range, k, slot) && slot.startAt <= u < slot.endAt
    ensures Spans(z, date, range, u)
  {
    assert k * step >= 0;
  }

  /** The clock shows the date and a minute at which the master works. */
  ghost predicate ReadsAsWork(staff: Staff, z: Zone, date: int, u: int) {
    LocalDate(z, u) == date && Works(staff, date, MinuteOfDay(z, u))
  }

  /** At every instant of every projected slot the local clock shows the requested date and
      a minute of that date's working hours that no weekly or one-off break covers. */
  lemma SlotsAreWorkingTime(staff: Staff, z: Zone, date: int, now: int, stepMinutes: SlotStep, slot: Slot, u: int)
    requires Regular(z) && WholeMinutes(z)
    requires BoundariesClear(staff, z, date)
    requires StaffDay(staff, z, date, now, stepMinutes).Ok?
    requires slot in StaffDay(staff, z, date, now, stepMinutes).value
    requires slot.startAt <= u < slot.endAt
    ensures ReadsAsWork(staff, z, date, u)
  {
    StaffDayExact(staff, z, date, now, stepMinutes);
    var range, k: nat :| range in EffectiveRanges(staff, date)
                         && Offers(staff, z, date, now, stepMinutes * MINUTE, range, k, slot);
    OfferedWithin(staff, z, date, now, stepMinutes * MINUTE, range, k, slot, u);
    ReadsWithinIff(z, date, range);
    WithinIsShown(z, date, range, u);
    WorksIff(staff, date, MinuteOfDay(z, u));
  }

  /** The same rules and exceptions, for any service, calendar and pause. */
  predicate SameHours(a: Staff, b: Staff) {
    a.weeklyRules == b.weeklyRules && a.dateExceptions == b.dateExceptions
  }

  /** The master with a one-minute service and nothing else to do. */
  function Idle(staff: Staff): Staff {
    staff.(durationMinutes := 1, busyPeriods := [], pausedUntil := None)
  }

  /** Every instant between the resolved boundaries of a range is in some slot of some service. */
  lemma InstantIsOffered(staff: Staff, z: Zone, date: int, range: LocalMinuteRange, u: int)
      returns (now: int, k: nat, slot: Slot)
    requires Regular(z) && WholeMinutes(z) && Spans(z, date, range, u)
    ensures Offers(Idle(staff), z, date, now, MINUTE, range, k, slot) && slot.startAt <= u < slot.endAt
  {
    hide ResolveFrom, Naive, Reading, Regular, WholeMinutes;
    var start, end := StartOf(z, date, range), EndOf(z, date, range);
    FirstShown(z, date, range.start, false, start);
    FirstShown(z, date, range.end, true, end);
    now, k := start - 1, (u - start) / MINUTE;
    slot := SlotAt(Idle(staff), z, GridPoint(start, MINUTE, k));
    assert GridPoint(start, MINUTE, k) == u - u % MINUTE;
    assert Bookable(Idle(staff), now, GridPoint(start, MINUTE, k));
  }

  /** Both boundaries of every range of the day resolve; if one does not, the day fails. */
  ghost predicate DayResolves(staff: Staff, z: Zone, date: int) {
    forall range :: range in EffectiveRanges(staff, date) ==> Resolved(z, date, range)
  }

  /** The day offers the slot from the range, and it contains an instant that reads outside it. */
  ghost predicate LeavesItsRange(staff: Staff, z: Zone, date: int, now: int, step: SlotStep, range: LocalMinuteRange,
                                 k: nat, slot: Slot, u: int)
  {
    && StaffDay(staff, z, date, now, step).Ok?
    && range in EffectiveRanges(staff, date) && Offers(staff, z, date, now, step * MINUTE, range, k, slot)
    && slot.startAt <= u < slot.endAt && !ReadsWithin(z, date, range, u)
  }

  /** No slot of any service, at any time, with any step reads outside its range if and only if
      the boundaries of the day are clear, or the day fails. */
  lemma SlotsStayInRangeIff(staff: Staff, z: Zone, date: int)
    requires Regular(z) && WholeMinutes(z)
    ensures (DayResolves(staff, z, date) ==> BoundariesClear(staff, z, date)) <==>
            forall s: Staff, now, step, range, k, slot, u ::
              SameHours(s, staff) ==> !LeavesItsRange(s, z, date, now, step, range, k, slot, u)
  {
    hide Regular, WholeMinutes, BoundsClear, Spans, ReadsWithin, EffectiveRanges, Offers, StaffDay;
    if DayResolves(staff, z, date) ==> BoundariesClear(staff, z, date) {
      forall s: Staff, now, step: SlotStep, range, k: nat, slot, u | SameHours(s, staff)
        ensures !LeavesItsRange(s, z, date, now, step, range, k, slot, u)
      {
        SameEffectiveRanges(s, staff, date);
        StaffDayExact(s, z, date, now, step);
        if LeavesItsRange(s, z, date, now, step, range, k, slot, u) {
          OfferedWithin(s, z, date, now, step * MINUTE, range, k, slot, u);
          SpansResolved(z, date, range, u);
          ReadsWithinIff(z, date, range);
        }
      }
    } else {
      var range :| range in EffectiveRanges(staff, date) && !BoundsClear(z, date, range);
      UnclearResolves(z, date, range);
      ReadsWithinIff(z, date, range);
      var u :| Spans(z, date, range, u) && !ReadsWithin(z, date, range, u);
      var now, k, slot := InstantIsOffered(staff, z, date, range, u);
      SameEffectiveRanges(Idle(staff), staff, date);
      StaffDayExact(Idle(staff), z, date, now, 1);
      assert LeavesItsRange(Idle(staff), z, date, now, 1, range, k, slot, u);
    }
  }

  lemma SpansResolved(z: Zone, date: int, range: LocalMinuteRange, u: int)
    requires Spans(z, date, range, u)
    ensures Resolved(z, date, range)
  {
  }

  lemma UnclearResolves(z: Zone, date: int, range: LocalMinuteRange)
    requires !BoundsClear(z, date, range)
    ensures Resolved(z, date, range)
  {
  }

  lemma SameEffectiveRanges(a: Staff, b: Staff, date: int)
    requires SameHours(a, b)
    ensures EffectiveRanges(a, date) == EffectiveRanges(b, date)
    ensures forall m :: OnBreak(a, date, m) <==> OnBreak(b, date, m)
  {
  }

  /** The day offers the slot, and at the instant, which is in it, the clock shows the minute. */
  ghost predicate SlotShows(staff: Staff, z: Zone, date: int, now: int, step: SlotStep, minute: int, slot: Slot, u: int)
  {
    && StaffDay(staff, z, date, now, step).Ok? && slot in StaffDay(staff, z, date, now, step).value
    && slot.startAt <= u < slot.endAt && ShowsMinute(z, date, minute, u)
  }

  ghost predicate DayMisses(staff: Staff, z: Zone, date: int, minute: int) {
    forall range :: range in EffectiveRanges(staff, date) ==> Misses(z, date, range, minute)
  }

  /** A minute that is no working time (outside the hours, in a break, of another date) is shown
      in no slot of any service, at any time, with any step, if and only if every range of the
      day misses it, or the day fails. */
  lemma MinuteIsMissedIff(staff: Staff, z: Zone, date: int, minute: int)
    requires Regular(z) && WholeMinutes(z)
    requires !Covered(EffectiveRanges(staff, date), minute)
    ensures (DayResolves(staff, z, date) ==> DayMisses(staff, z, date, minute)) <==>
            forall s: Staff, now, step, slot, u ::
              SameHours(s, staff) ==> !SlotShows(s, z, date, now, step, minute, slot, u)
  {
    hide Regular, WholeMinutes, Misses, Spans, ShowsMinute, EffectiveRanges, Offers, Resolved, StaffDay;
    var ranges := EffectiveRanges(staff, date);
    if DayResolves(staff, z, date) ==> DayMisses(staff, z, date, minute) {
      forall s: Staff, now, step: SlotStep, slot, u | SameHours(s, staff)
        ensures !SlotShows(s, z, date, now, step, minute, slot, u)
      {
        SameEffectiveRanges(s, staff, date);
        StaffDayExact(s, z, date, now, step);
        if SlotShows(s, z, date, now, step, minute, slot, u) {
          var range, k: nat :| range in ranges && Offers(s, z, date, now, step * MINUTE, range, k, slot);
          OfferedWithin(s, z, date, now, step * MINUTE, range, k, slot, u);
          MissesIff(z, date, range, minute);
        }
      }
    } else {
      var range :| range in ranges && !Misses(z, date, range, minute);
      MissesIff(z, date, range, minute);
      var u :| Spans(z, date, range, u) && ShowsMinute(z, date, minute, u);
      var now, k, slot := InstantIsOffered(staff, z, date, range, u);
      SameEffectiveRanges(Idle(staff), staff, date);
      StaffDayExact(Idle(staff), z, date, now, 1);
      assert OffersSome(Idle(staff), z, date, now, 1 * MINUTE, ranges, slot);
      assert SlotShows(Idle(staff), z, date, now, 1, minute, slot, u);
    }
  }

  /** The day offers the slot, and at the instant the clock shows a break of the date. */
  ghost predicate RunsThroughABreak(staff: Staff, z: Zone, date: int, now: int, step: SlotStep, slot: Slot, u: int) {
    && StaffDay(staff, z, date, now, step).Ok? && slot in StaffDay(staff, z, date, now, step).value
    && slot.startAt <= u < slot.endAt
    && LocalDate(z, u) == date && OnBreak(staff, date, MinuteOfDay(z, u))
  }

  /** No minute of a break is shown again once a range past it has begun, nor already before a
      range in front of it has ended. */
  ghost predicate BreaksMissed(staff: Staff, z: Zone, date: int) {
    forall minute :: OnBreak(staff, date, minute) ==> DayMisses(staff, z, date, minute)
  }

  /** No slot of any service, at any time, with any step runs through a break if and only if the
      ranges of the day miss the minutes of its breaks, or the day fails. */
  lemma SlotsMissBreaksIff(staff: Staff, z: Zone, date: int)
    requires Regular(z) && WholeMinutes(z)
    ensures (DayResolves(staff, z, date) ==> BreaksMissed(staff, z, date)) <==>
            forall s: Staff, now, step, slot, u ::
              SameHours(s, staff) ==> !RunsThroughABreak(s, z, date, now, step, slot, u)
  {
    hide Regular, WholeMinutes, DayMisses, DayResolves, EffectiveRanges, StaffDay, OnBreak, Covered;
    if DayResolves(staff, z, date) ==> BreaksMissed(staff, z, date) {
      forall s: Staff, now, step: SlotStep, slot, u | SameHours(s, staff)
        ensures !RunsThroughABreak(s, z, date, now, step, slot, u)
      {
        SameEffectiveRanges(s, staff, date);
        var minute := MinuteOfDay(z, u);
        if OnBreak(staff, date, minute) {
          BreakIsNoWork(staff, date, minute);
          ShownMinute(z, date, minute, u);
          MinuteIsMissedIff(staff, z, date, minute);
          assert !SlotShows(s, z, date, now, step, minute, slot, u);
        }
      }
    } else {
      var minute :| OnBreak(staff, date, minute) && !DayMisses(staff, z, date, minute);
      BreakIsNoWork(staff, date, minute);
      MinuteIsMissedIff(staff, z, date, minute);
      var s: Staff, now, step: SlotStep, slot, u :|
        SameHours(s, staff) && SlotShows(s, z, date, now, step, minute, slot, u);
      SameEffectiveRanges(s, staff, date);
      ShownMinute(z, date, minute, u);
      assert RunsThroughABreak(s, z, date, now, step, slot, u);
    }
  }

  lemma BreakIsNoWork(staff: Staff, date: int, minute: int)
    requires OnBreak(staff, date, minute)
    ensures 0 <= minute < 1440 && !Covered(EffectiveRanges(staff, date), minute)
  {
    WorksIff(staff, date, minute);
    OnBreakIff(staff, date, minute);
  }

  /** Clear boundaries keep slots out of the breaks. */
  lemma ClearMissesBreaks(staff: Staff, z: Zone, date: int)
    requires Regular(z) && WholeMinutes(z) && BoundariesClear(staff, z, date)
    ensures BreaksMissed(staff, z, date)
  {
    hide Regular, WholeMinutes, BoundsClear, EffectiveRanges, Resolved, OnBreak, Spans;
    forall range, minute | OnBreak(staff, date, minute) && range in EffectiveRanges(staff, date)
      ensures Misses(z, date, range, minute)
    {
      BreakIsNoWork(staff, date, minute);
      if Resolved(z, date, range) {
        ReadsWithinIff(z, date, range);
        MissesIff(z, date, range, minute);
      }
    }
  }

  /** Every slot also respects the present, the pause and every busy period, and lasts
      exactly the service's duration. */
  lemma SlotsAreFree(staff: Staff, z: Zone, date: int, now: int, stepMinutes: SlotStep, slot: Slot)
    requires StaffDay(staff, z, date, now, stepMinutes).Ok?
    requires slot in StaffDay(staff, z, date, now, stepMinutes).value
    ensures slot.staffId == staff.id && slot.endAt - slot.startAt == staff.durationMinutes * MINUTE
    ensures now < slot.startAt
    ensures staff.pausedUntil.Some? ==> staff.pausedUntil.value <= slot.startAt
    ensures forall b, u :: b in staff.busyPeriods && slot.startAt <= u < slot.endAt ==> !b.Includes(u)
  {
    StaffDayExact(staff, z, date, now, stepMinutes);
  }

  /** A date with an all-day exception has no slot, whatever its other rows say. */
  lemma AllDayExceptionClosesTheDay(staff: Staff, z: Zone, date: int, now: int, stepMinutes: SlotStep)
    requires exists e :: e in staff.dateExceptions && e.localDate == date && e.interval.None?
    ensures StaffDay(staff, z, date, now, stepMinutes) == Ok([])
  {
    var e :| e in staff.dateExceptions && e.localDate == date && e.interval.None?;
    assert AllDayKind(e.kind);
  }

  /** Only what the hours and the breaks of the date are together matters, not their order nor
      which breaks are weekly and which are one-off. */
  lemma BreakOrderIrrelevant(a: Staff, b: Staff, date: int)
    requires multiset(WorkingHours(a, date)) == multiset(WorkingHours(b, date))
    requires multiset(Breaks(a, date)) == multiset(Breaks(b, date))
    requires HasAllDayException(a, date) <==> HasAllDayException(b, date)
    ensures EffectiveRanges(a, date) == EffectiveRanges(b, date)
  {
    SubtractPermuted(WorkingHours(a, date), WorkingHours(b, date), Breaks(a, date), Breaks(b, date));
  }
}
