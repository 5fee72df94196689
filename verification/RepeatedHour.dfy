/** A day on which a slot runs through a break. */
module RepeatedHour {
  import opened Basics
  import opened TimeZones
  import opened MinuteRanges
  import opened Boundaries
  import opened ScheduleProjection
  import opened WorkingTime

  /** On a day whose clock goes from 2:00 back to 1:00, the working range that a break from 1:00
      ends is resolved to the second 1:00, so its slot runs through the first pass of the break. */
  lemma RepeatedBoundaryAdmitsABreak(z: Zone, staff: Staff) returns (slot: Slot, u: int)
    requires z == Zone(60 * MINUTE, [Transition(60 * MINUTE, 0)])
    requires staff == Staff(1, "A", 120, [WeeklyRule(6, Work, Range(0, 240)), WeeklyRule(6, Break, Range(60, 90))],
                            [], [], 0, true, true, None)
    ensures Regular(z) && WholeMinutes(z) && !BoundariesClear(staff, z, 0)
    ensures RunsThroughABreak(staff, z, 0, -DAY, 1440, slot, u)
  {
    slot, u := SlotAt(staff, z, -60 * MINUTE), 0;
    FoldIsOffered(z, staff);
    FoldMeetsThePause(z, staff);
    RegularFold(z);
    hide StaffDay, SlotAt, Breaks, MinuteOfDay, LocalDate, BoundariesClear, Regular, WholeMinutes, Reading, OnBreak;
  }

  lemma FoldIsOffered(z: Zone, staff: Staff)
    requires z == Zone(60 * MINUTE, [Transition(60 * MINUTE, 0)])
    requires staff == Staff(1, "A", 120, [WeeklyRule(6, Work, Range(0, 240)), WeeklyRule(6, Break, Range(60, 90))],
                            [], [], 0, true, true, None)
    ensures !BoundariesClear(staff, z, 0)
    ensures var day := StaffDay(staff, z, 0, -DAY, 1440); day.Ok? && SlotAt(staff, z, -60 * MINUTE) in day.value
  {
    var first, second: LocalMinuteRange := Range(0, 60), Range(90, 240);
    RangesOfTheDay(staff, first, second);
    FoldIsNotClear(z, staff, first, second);
    SlotsOnTheFold(z, staff, first, second);
    hide SlotsOf, EffectiveRanges, BoundariesClear, SlotAt;
  }

  lemma FoldMeetsThePause(z: Zone, staff: Staff)
    requires z == Zone(60 * MINUTE, [Transition(60 * MINUTE, 0)])
    requires staff == Staff(1, "A", 120, [WeeklyRule(6, Work, Range(0, 240)), WeeklyRule(6, Break, Range(60, 90))],
                            [], [], 0, true, true, None)
    ensures SlotAt(staff, z, -60 * MINUTE).startAt <= 0 < SlotAt(staff, z, -60 * MINUTE).endAt
    ensures LocalDate(z, 0) == 0 && OnBreak(staff, 0, MinuteOfDay(z, 0))
  {
    var first, second, pause: LocalMinuteRange := Range(0, 60), Range(90, 240), Range(60, 90);
    RangesOfTheDay(staff, first, second);
    SlotsStart(z, staff);
    ReadsOneOClock(z);
    hide EffectiveRanges, Breaks, LocalDate, MinuteOfDay, SlotAt, OnBreak;
    assert pause in Breaks(staff, 0) && pause.Covers(60);
    OnBreakIff(staff, 0, 60);
  }

  lemma SlotsStart(z: Zone, staff: Staff)
    requires staff.durationMinutes == 120
    ensures SlotAt(staff, z, -60 * MINUTE).startAt <= 0 < SlotAt(staff, z, -60 * MINUTE).endAt
  {
  }

  lemma ReadsOneOClock(z: Zone)
    requires z == Zone(60 * MINUTE, [Transition(60 * MINUTE, 0)])
    ensures LocalDate(z, 0) == 0 && MinuteOfDay(z, 0) == 60
  {
    RegularFold(z);
    assert Reading(z, 0) == 60 * MINUTE;
  }

  lemma RangesOfTheDay(staff: Staff, first: LocalMinuteRange, second: LocalMinuteRange)
    requires staff == Staff(1, "A", 120, [WeeklyRule(6, Work, Range(0, 240)), WeeklyRule(6, Break, Range(60, 90))],
                            [], [], 0, true, true, None)
    requires first == Range(0, 60) && second == Range(90, 240)
    ensures EffectiveRanges(staff, 0) == [first, second] && Breaks(staff, 0) == [Range(60, 90)]
  {
    RulesOfTheDay(staff);
    SplitByPause(Range(0, 240), Range(60, 90), first, second);
  }

  lemma FoldIsNotClear(z: Zone, staff: Staff, first: LocalMinuteRange, second: LocalMinuteRange)
    requires z == Zone(60 * MINUTE, [Transition(60 * MINUTE, 0)])
    requires first == Range(0, 60) && EffectiveRanges(staff, 0) == [first, second]
    ensures !BoundariesClear(staff, z, 0)
  {
    RegularFold(z);
    BoundaryOnTheFold(z, 0, -60 * MINUTE, false);
    BoundaryOnTheFold(z, 60, 60 * MINUTE, true);
    hide ResolveFrom, EffectiveRanges, Regular, WholeMinutes, Naive;
    assert Reading(z, 0) == 60 * MINUTE && Reading(z, 60 * MINUTE) == 60 * MINUTE;
    assert ShownBefore(z, 60 * MINUTE, 60 * MINUTE);
    assert first in [first, second] && !BoundsClear(z, 0, first);
  }

  lemma SlotsOnTheFold(z: Zone, staff: Staff, first: LocalMinuteRange, second: LocalMinuteRange)
    requires z == Zone(60 * MINUTE, [Transition(60 * MINUTE, 0)])
    requires staff == Staff(1, "A", 120, [WeeklyRule(6, Work, Range(0, 240)), WeeklyRule(6, Break, Range(60, 90))],
                            [], [], 0, true, true, None)
    requires first == Range(0, 60) && second == Range(90, 240)
    ensures var slots := SlotsOf(staff, z, 0, -DAY, 1440 * MINUTE, [first, second]);
            slots.Ok? && SlotAt(staff, z, -60 * MINUTE) in slots.value
  {
    RegularFold(z);
    BoundaryOnTheFold(z, 0, -60 * MINUTE, false);
    BoundaryOnTheFold(z, 60, 60 * MINUTE, true);
    BoundaryOnTheFold(z, 90, 30 * MINUTE, false);
    BoundaryOnTheFold(z, 240, 240 * MINUTE, true);
    hide ResolveFrom;
    var step := 1440 * MINUTE;
    var ranges := [first, second];
    assert ranges[..1] == [first] && ranges[..1][..0] == [];
    assert SlotsOf(staff, z, 0, -DAY, step, []) == Ok([]);
    var early := RangeSlots(staff, z, -DAY, step, -60 * MINUTE, 60 * MINUTE);
    assert SlotsOf(staff, z, 0, -DAY, step, [first]) == Ok([] + early);
    assert SlotsOf(staff, z, 0, -DAY, step, ranges).Ok?;
    assert Bookable(staff, -DAY, -60 * MINUTE);
    assert SlotAt(staff, z, -60 * MINUTE) == early[0];
  }

  lemma RegularFold(z: Zone)
    requires z == Zone(60 * MINUTE, [Transition(60 * MINUTE, 0)])
    ensures Regular(z) && WholeMinutes(z)
    ensures forall u :: Reading(z, u) == if u >= 60 * MINUTE then u else u + 60 * MINUTE
  {
    assert Earlier(z).transitions == [];
    forall u ensures Reading(z, u) == if u >= 60 * MINUTE then u else u + 60 * MINUTE {
      assert OffsetAt(Earlier(z), u) == 60 * MINUTE;
      assert Last(z) == Transition(60 * MINUTE, 0);
    }
  }

  lemma RulesOfTheDay(staff: Staff)
    requires staff.weeklyRules == [WeeklyRule(6, Work, Range(0, 240)), WeeklyRule(6, Break, Range(60, 90))]
    requires staff.dateExceptions == []
    ensures WorkingHours(staff, 0) == [Range(0, 240)] && Breaks(staff, 0) == [Range(60, 90)]
  {
    var rules := staff.weeklyRules;
    assert rules[..1] == [rules[0]] && rules[..1][..0] == [];
    assert WeeklyIntervals(rules[..1], 6, Work) == [rules[0].interval];
    assert WeeklyIntervals(rules[..1], 6, Break) == [];
  }

  lemma SplitByPause(work: LocalMinuteRange, pause: LocalMinuteRange, first: LocalMinuteRange, second: LocalMinuteRange)
    requires work == Range(0, 240) && pause == Range(60, 90) && first == Range(0, 60) && second == Range(90, 240)
    ensures Subtract([work], [pause]) == [first, second]
  {
    assert [work][1..] == [] && [pause][1..] == [];
    var none: seq<LocalMinuteRange> := [];
    assert Sorting.Sort(Leq, none) == none;
    assert Sorting.Insert(Leq, work, none) == [work] && Sorting.Insert(Leq, pause, none) == [pause];
    assert Sorted([work]) == [work] && Sorted([pause]) == [pause];
    assert CutAll([work], pause) == Cut(work, pause) + CutAll([work][1..], pause) == [first, second];
    assert CutEach([work], [pause]) == CutEach(CutAll([work], pause), [pause][1..]);
  }

  lemma BoundaryOnTheFold(z: Zone, minute: int, u: int, late: bool)
    requires z == Zone(60 * MINUTE, [Transition(60 * MINUTE, 0)])
    requires 0 <= minute <= 240 && Reading(z, u) == minute * MINUTE
    requires forall v :: Reading(z, v) == minute * MINUTE ==> if late then v <= u else u <= v
    ensures ResolveFrom(z, Naive(0, minute), 0, late) == Some(u)
  {
    RegularFold(z);
    NaiveIsLinear(0, minute);
    ValidUtcInstantsExact(z, minute * MINUTE);
    var instants := ValidUtcInstants(z, minute * MINUTE);
    assert u in instants;
    assert instants[0] in instants && instants[|instants| - 1] in instants;
  }
}
