/** From one master's weekly rules, date exceptions, breaks, busy periods and pause to the
    bookable slots of one local day. Dates are day ordinals, instants are UTC microseconds. */
module ScheduleProjection {
  import opened Basics
  import opened Sorting
  import opened TimeZones
  import opened MinuteRanges

  datatype IntervalKind = Work | Break
  datatype ExceptionKind = DayOff | Leave | Sick | WorkingWindow | BreakOnce

  datatype WeeklyRule = WeeklyRule(weekday: int, kind: IntervalKind, interval: LocalMinuteRange)

  predicate AllDayKind(k: ExceptionKind) { k == DayOff || k == Leave || k == Sick }

  datatype DateExceptionRow = DateExceptionRow(localDate: int, kind: ExceptionKind, interval: Option<LocalMinuteRange>)

  /** Timed exceptions carry an interval and all-day exceptions do not. */
  type DateException = e: DateExceptionRow | AllDayKind(e.kind) <==> e.interval.None?
    witness DateExceptionRow(0, DayOff, None)

  datatype BusyPeriod = BusyPeriod(startAt: int, endAt: int) {
    predicate Includes(u: int) { startAt <= u < endAt }
  }

  datatype StaffRow = Staff(
    id: int,
    displayName: string,
    durationMinutes: int,
    weeklyRules: seq<WeeklyRule>,
    dateExceptions: seq<DateException>,
    busyPeriods: seq<BusyPeriod>,
    sortOrder: int,
    isActive: bool,
    isBookable: bool,
    pausedUntil: Option<int>)

  /** Service durations lie between one minute and one day. */
  type Staff = s: StaffRow | 1 <= s.durationMinutes <= 1440
    witness Staff(1, "A", 60, [], [], [], 0, true, true, None)

  /** Minutes between two slot starts. */
  type SlotStep = m: int | 1 <= m <= 1440 witness 30

  datatype LocalTime = LocalTime(reading: int, fold: bool)

  datatype Slot = Slot(
    staffId: int, staffName: string,
    startAt: int, endAt: int,
    localStart: LocalTime, localEnd: LocalTime)

  datatype ScheduleError =
    | UnresolvedGap
    | BadHorizon
    | BadStep
    | UnknownZone
    | OutsideHorizon
    | DuplicateStaff
    | SoloWithManyMasters
    | NotBookable

  // ---------------------------------------------------------------------------
  // Grouping and validation of the rules

  function WeeklyIntervals(rules: seq<WeeklyRule>, weekday: int, kind: IntervalKind): seq<LocalMinuteRange> {
    if rules == [] then []
    else
      var r := rules[|rules| - 1];
      WeeklyIntervals(rules[..|rules| - 1], weekday, kind)
      + if r.weekday == weekday && r.kind == kind then [r.interval] else []
  }

  function ExceptionIntervals(exceptions: seq<DateException>, date: int, kind: ExceptionKind): seq<LocalMinuteRange> {
    if exceptions == [] then []
    else
      var e := exceptions[|exceptions| - 1];
      ExceptionIntervals(exceptions[..|exceptions| - 1], date, kind)
      + if e.localDate == date && e.kind == kind && e.interval.Some? then [e.interval.value] else []
  }

  /** Two rules of one weekday and kind never overlap. */
  ghost predicate RulesDisjoint(rules: seq<WeeklyRule>) {
    forall i, j :: 0 <= i < j < |rules| && rules[i].weekday == rules[j].weekday && rules[i].kind == rules[j].kind ==>
      !rules[i].interval.Overlaps(rules[j].interval)
  }

  lemma {:induction false} WeeklyMembers(rules: seq<WeeklyRule>, weekday: int, kind: IntervalKind)
    ensures forall r :: r in WeeklyIntervals(rules, weekday, kind) <==>
              exists i :: 0 <= i < |rules| && rules[i].weekday == weekday && rules[i].kind == kind
                          && rules[i].interval == r
  {
    if rules != [] {
      var front := rules[..|rules| - 1];
      WeeklyMembers(front, weekday, kind);
      forall r ensures r in WeeklyIntervals(rules, weekday, kind) <==>
              exists i :: 0 <= i < |rules| && rules[i].weekday == weekday && rules[i].kind == kind
                          && rules[i].interval == r
      {
        if i :| 0 <= i < |rules| && rules[i].weekday == weekday && rules[i].kind == kind && rules[i].interval == r {
          if i < |front| { assert front[i] == rules[i]; }
        }
        if r in WeeklyIntervals(front, weekday, kind) {
          var i :| 0 <= i < |front| && front[i].weekday == weekday && front[i].kind == kind && front[i].interval == r;
          assert rules[i] == front[i];
        }
      }
    }
  }

  lemma DisjointSnoc(rs: seq<LocalMinuteRange>, x: LocalMinuteRange)
    ensures PairwiseDisjoint(rs + [x]) <==> PairwiseDisjoint(rs) && Clear(x, rs)
  {
    var all := rs + [x];
    if PairwiseDisjoint(all) {
      forall i, j | 0 <= i < j < |rs| ensures !rs[i].Overlaps(rs[j]) {
        assert !all[i].Overlaps(all[j]);
      }
      forall r | r in rs ensures !x.Overlaps(r) {
        var k :| 0 <= k < |rs| && rs[k] == r;
        assert !all[k].Overlaps(all[|rs|]);
      }
    }
    if PairwiseDisjoint(rs) && Clear(x, rs) {
      forall i, j | 0 <= i < j < |all| ensures !all[i].Overlaps(all[j]) {
        if j == |rs| { assert rs[i] in rs; }
      }
    }
  }

  /** The groups are free of overlap exactly when no two rules of one group overlap. */
  lemma {:induction false} GroupsDisjoint(rules: seq<WeeklyRule>)
    ensures RulesDisjoint(rules) <==>
            forall weekday, kind :: PairwiseDisjoint(WeeklyIntervals(rules, weekday, kind))
  {
    if rules != [] {
      var front, last := rules[..|rules| - 1], rules[|rules| - 1];
      GroupsDisjoint(front);
      WeeklyMembers(front, last.weekday, last.kind);
      DisjointSnoc(WeeklyIntervals(front, last.weekday, last.kind), last.interval);
      RulesSnoc(front, last);
      assert rules == front + [last];
      forall weekday, kind ensures PairwiseDisjoint(WeeklyIntervals(rules, weekday, kind)) <==>
        PairwiseDisjoint(WeeklyIntervals(front, weekday, kind))
        && (weekday == last.weekday && kind == last.kind ==>
              Clear(last.interval, WeeklyIntervals(front, weekday, kind)))
      {
        if weekday != last.weekday || kind != last.kind {
          assert WeeklyIntervals(rules, weekday, kind) == WeeklyIntervals(front, weekday, kind);
        }
      }
      if RulesDisjoint(front) && Clear(last.interval, WeeklyIntervals(front, last.weekday, last.kind)) {
        forall weekday, kind ensures PairwiseDisjoint(WeeklyIntervals(rules, weekday, kind)) {
          assert PairwiseDisjoint(WeeklyIntervals(front, weekday, kind));
        }
      } else if RulesDisjoint(front) {
        assert !PairwiseDisjoint(WeeklyIntervals(rules, last.weekday, last.kind));
      } else {
        var weekday, kind :| !PairwiseDisjoint(WeeklyIntervals(front, weekday, kind));
        assert !PairwiseDisjoint(WeeklyIntervals(rules, weekday, kind));
      }
    }
  }

  lemma RulesSnoc(rules: seq<WeeklyRule>, x: WeeklyRule)
    ensures RulesDisjoint(rules + [x]) <==>
            RulesDisjoint(rules) && Clear(x.interval, WeeklyIntervals(rules, x.weekday, x.kind))
  {
    WeeklyMembers(rules, x.weekday, x.kind);
    var all := rules + [x];
    if RulesDisjoint(all) {
      forall i, j | 0 <= i < j < |rules| && rules[i].weekday == rules[j].weekday && rules[i].kind == rules[j].kind
        ensures !rules[i].interval.Overlaps(rules[j].interval)
      {
        assert all[i] == rules[i] && all[j] == rules[j];
      }
      forall r | r in WeeklyIntervals(rules, x.weekday, x.kind) ensures !x.interval.Overlaps(r) {
        var i :| 0 <= i < |rules| && rules[i].weekday == x.weekday && rules[i].kind == x.kind && rules[i].interval == r;
        assert all[i] == rules[i] && all[|rules|] == x;
      }
    }
    if RulesDisjoint(rules) && Clear(x.interval, WeeklyIntervals(rules, x.weekday, x.kind)) {
      forall i, j | 0 <= i < j < |all| && all[i].weekday == all[j].weekday && all[i].kind == all[j].kind
        ensures !all[i].interval.Overlaps(all[j].interval)
      {
        if j == |rules| { assert rules[i].interval in WeeklyIntervals(rules, x.weekday, x.kind); }
      }
    }
  }

  lemma OneGroupOverlaps(rules: seq<WeeklyRule>, weekday: int, kind: IntervalKind)
    requires !PairwiseDisjoint(WeeklyIntervals(rules, weekday, kind))
    ensures !RulesDisjoint(rules)
  {
    GroupsDisjoint(rules);
  }

  /** The intervals of each weekday and kind, in the order of the rules. */
  method GroupRules(rules: seq<WeeklyRule>) returns (grouped: map<(int, IntervalKind), seq<LocalMinuteRange>>)
    ensures forall key :: key in grouped ==> grouped[key] == WeeklyIntervals(rules, key.0, key.1)
    ensures forall weekday, kind :: (weekday, kind) !in grouped ==> WeeklyIntervals(rules, weekday, kind) == []
  {
    grouped := map[];
    for i := 0 to |rules|
      invariant forall key :: key in grouped ==> grouped[key] == WeeklyIntervals(rules[..i], key.0, key.1)
      invariant forall weekday, kind :: (weekday, kind) !in grouped ==> WeeklyIntervals(rules[..i], weekday, kind) == []
    {
      var key := (rules[i].weekday, rules[i].kind);
      assert rules[..i + 1][..i] == rules[..i];
      grouped := grouped[key := (if key in grouped then grouped[key] else []) + [rules[i].interval]];
    }
    assert rules[..|rules|] == rules;
  }

  /** Groups the weekly rules by weekday and kind and checks every group; accepts exactly
      the rule sets without an overlap of one kind on one weekday. */
  method EnsureWeeklyRulesDoNotOverlap(rules: seq<WeeklyRule>) returns (accepted: bool)
    ensures accepted <==> RulesDisjoint(rules)
  {
    var grouped := GroupRules(rules);
    var keys := grouped.Keys;
    while keys != {}
      invariant keys <= grouped.Keys
      invariant forall key :: key in grouped.Keys - keys ==> PairwiseDisjoint(grouped[key])
      decreases keys
    {
      var key :| key in keys;
      var ok := EnsureRangesDoNotOverlap(grouped[key]);
      if !ok {
        OneGroupOverlaps(rules, key.0, key.1);
        return false;
      }
      keys := keys - {key};
    }
    forall weekday, kind ensures PairwiseDisjoint(WeeklyIntervals(rules, weekday, kind)) {
      if (weekday, kind) in grouped { assert PairwiseDisjoint(grouped[(weekday, kind)]); }
    }
    GroupsDisjoint(rules);
    return true;
  }

  // ---------------------------------------------------------------------------
  // Effective working ranges

  predicate HasAllDayException(staff: Staff, date: int) {
    exists e :: e in staff.dateExceptions && e.localDate == date && AllDayKind(e.kind)
  }

  /** The hours of a date: its own working windows if it has any, else the weekly ones. */
  function WorkingHours(staff: Staff, date: int): seq<LocalMinuteRange> {
    var custom := ExceptionIntervals(staff.dateExceptions, date, WorkingWindow);
    if custom != [] then custom else WeeklyIntervals(staff.weeklyRules, Weekday(date), Work)
  }

  function Breaks(staff: Staff, date: int): seq<LocalMinuteRange> {
    WeeklyIntervals(staff.weeklyRules, Weekday(date), Break)
    + ExceptionIntervals(staff.dateExceptions, date, BreakOnce)
  }

  function EffectiveRanges(staff: Staff, date: int): seq<LocalMinuteRange> {
    if HasAllDayException(staff, date) then [] else Subtract(WorkingHours(staff, date), Breaks(staff, date))
  }

  // The same in the columns of the rules and exceptions.

  /** An exception of the date takes all of it. */
  ghost predicate Away(staff: Staff, date: int) {
    exists e :: e in staff.dateExceptions && e.localDate == date
                && (e.kind == DayOff || e.kind == Leave || e.kind == Sick)
  }

  ghost predicate HasOwnHours(staff: Staff, date: int) {
    exists e :: e in staff.dateExceptions && e.localDate == date && e.kind == WorkingWindow
  }

  /** An exception of this kind and date covers the minute. */
  ghost predicate Excepted(staff: Staff, date: int, kind: ExceptionKind, m: int) {
    exists e :: e in staff.dateExceptions && e.localDate == date && e.kind == kind
                && e.interval.Some? && e.interval.value.start <= m < e.interval.value.end
  }

  /** A weekly rule of this kind for the weekday of the date covers the minute. */
  ghost predicate Ruled(staff: Staff, date: int, kind: IntervalKind, m: int) {
    exists r :: r in staff.weeklyRules && r.weekday == Weekday(date) && r.kind == kind
                && r.interval.start <= m < r.interval.end
  }

  /** The minute is in a break: one of every week or one of this date. */
  ghost predicate OnBreak(staff: Staff, date: int, m: int) {
    Ruled(staff, date, Break, m) || Excepted(staff, date, BreakOnce, m)
  }

  /** The master works at the minute: not away, in the hours of the date, which replace the weekly
      ones if there are any, and not on a break. */
  ghost predicate Works(staff: Staff, date: int, m: int) {
    && !Away(staff, date) && !OnBreak(staff, date, m)
    && if HasOwnHours(staff, date) then Excepted(staff, date, WorkingWindow, m) else Ruled(staff, date, Work, m)
  }

  lemma {:induction false} ExceptionMembers(exceptions: seq<DateException>, date: int, kind: ExceptionKind)
    requires !AllDayKind(kind)
    ensures forall x :: x in ExceptionIntervals(exceptions, date, kind) <==>
              exists e :: e in exceptions && e.localDate == date && e.kind == kind && e.interval == Some(x)
    ensures ExceptionIntervals(exceptions, date, kind) != [] <==>
              exists e :: e in exceptions && e.localDate == date && e.kind == kind
  {
    if exceptions != [] {
      var front, last := exceptions[..|exceptions| - 1], exceptions[|exceptions| - 1];
      ExceptionMembers(front, date, kind);
      assert exceptions == front + [last];
      assert forall e :: e in exceptions <==> e in front || e == last;
      if last.localDate == date && last.kind == kind {
        assert last.interval.Some?;
        assert ExceptionIntervals(exceptions, date, kind) ==
               ExceptionIntervals(front, date, kind) + [last.interval.value];
      } else {
        assert ExceptionIntervals(exceptions, date, kind) == ExceptionIntervals(front, date, kind);
      }
    }
  }

  lemma ExceptedIff(staff: Staff, date: int, kind: ExceptionKind, m: int)
    requires !AllDayKind(kind)
    ensures Covered(ExceptionIntervals(staff.dateExceptions, date, kind), m) <==> Excepted(staff, date, kind, m)
  {
    var own := ExceptionIntervals(staff.dateExceptions, date, kind);
    ExceptionMembers(staff.dateExceptions, date, kind);
    if e :| e in staff.dateExceptions && e.localDate == date && e.kind == kind
            && e.interval.Some? && e.interval.value.start <= m < e.interval.value.end {
      assert e.interval.value in own && e.interval.value.Covers(m);
    }
    if x :| x in own && x.Covers(m) {
      var e :| e in staff.dateExceptions && e.localDate == date && e.kind == kind && e.interval == Some(x);
    }
  }

  lemma RuledIff(staff: Staff, date: int, kind: IntervalKind, m: int)
    ensures Covered(WeeklyIntervals(staff.weeklyRules, Weekday(date), kind), m) <==> Ruled(staff, date, kind, m)
  {
    var weekly := WeeklyIntervals(staff.weeklyRules, Weekday(date), kind);
    WeeklyMembers(staff.weeklyRules, Weekday(date), kind);
    if r :| r in staff.weeklyRules && r.weekday == Weekday(date) && r.kind == kind
            && r.interval.start <= m < r.interval.end {
      var i :| 0 <= i < |staff.weeklyRules| && staff.weeklyRules[i] == r;
      assert r.interval in weekly && r.interval.Covers(m);
    }
    if x :| x in weekly && x.Covers(m) {
      var i :| 0 <= i < |staff.weeklyRules| && staff.weeklyRules[i].weekday == Weekday(date)
               && staff.weeklyRules[i].kind == kind && staff.weeklyRules[i].interval == x;
      assert staff.weeklyRules[i] in staff.weeklyRules;
    }
  }

  lemma CoveredConcat(a: seq<LocalMinuteRange>, b: seq<LocalMinuteRange>, m: int)
    ensures Covered(a + b, m) <==> Covered(a, m) || Covered(b, m)
  {
    assert forall x :: x in a + b <==> x in a || x in b;
  }

  lemma OnBreakIff(staff: Staff, date: int, m: int)
    ensures Covered(Breaks(staff, date), m) <==> OnBreak(staff, date, m)
  {
    RuledIff(staff, date, Break, m);
    ExceptedIff(staff, date, BreakOnce, m);
    hide Covered;
    CoveredConcat(WeeklyIntervals(staff.weeklyRules, Weekday(date), Break),
                  ExceptionIntervals(staff.dateExceptions, date, BreakOnce), m);
  }

  /** The ranges of a date are exactly the minutes at which the rules and exceptions have the
      master work. */
  lemma WorksIff(staff: Staff, date: int, m: int)
    ensures Covered(EffectiveRanges(staff, date), m) <==> Works(staff, date, m)
  {
    OnBreakIff(staff, date, m);
    RuledIff(staff, date, Work, m);
    ExceptedIff(staff, date, WorkingWindow, m);
    ExceptionMembers(staff.dateExceptions, date, WorkingWindow);
    SubtractIsDifference(WorkingHours(staff, date), Breaks(staff, date), m);
    hide Breaks, OnBreak, Ruled, Excepted, ExceptionIntervals, WeeklyIntervals, Subtract;
  }

  method EffectiveWorkRanges(staff: Staff, date: int) returns (r: seq<LocalMinuteRange>)
    ensures r == EffectiveRanges(staff, date)
    ensures forall m :: Covered(r, m) <==> Works(staff, date, m)
    ensures PairwiseDisjoint(WorkingHours(staff, date)) ==> Ascending(r)
  {
    forall m ensures Covered(EffectiveRanges(staff, date), m) <==> Works(staff, date, m) {
      WorksIff(staff, date, m);
    }
    if HasAllDayException(staff, date) {
      return [];
    }
    r := SubtractRanges(WorkingHours(staff, date), Breaks(staff, date));
    if PairwiseDisjoint(WorkingHours(staff, date)) {
      SubtractShape(WorkingHours(staff, date), Breaks(staff, date));
    }
  }

  // ---------------------------------------------------------------------------
  // The slot loop

  predicate Bookable(staff: Staff, now: int, cursor: int) {
    && cursor > now
    && (staff.pausedUntil.None? || cursor >= staff.pausedUntil.value)
    && !exists b :: b in staff.busyPeriods && cursor < b.endAt && b.startAt < cursor + staff.durationMinutes * MINUTE
  }

  function SlotAt(staff: Staff, z: Zone, cursor: int): Slot {
    var end := cursor + staff.durationMinutes * MINUTE;
    Slot(staff.id, staff.displayName, cursor, end,
         LocalTime(Reading(z, cursor), FoldAt(z, cursor)), LocalTime(Reading(z, end), FoldAt(z, end)))
  }

  function RangeSlots(staff: Staff, z: Zone, now: int, step: int, cursor: int, rangeEnd: int): seq<Slot>
    requires step > 0
    decreases rangeEnd - cursor
  {
    if cursor + staff.durationMinutes * MINUTE > rangeEnd then []
    else
      (if Bookable(staff, now, cursor) then [SlotAt(staff, z, cursor)] else [])
      + RangeSlots(staff, z, now, step, cursor + step, rangeEnd)
  }

  /** The slots of the given ranges in order, or the error of the first boundary that does
      not resolve. */
  function SlotsOf(staff: Staff, z: Zone, date: int, now: int, step: int, ranges: seq<LocalMinuteRange>)
      : Result<seq<Slot>, ScheduleError>
    requires step > 0
  {
    if ranges == [] then Ok([])
    else
      var front := SlotsOf(staff, z, date, now, step, ranges[..|ranges| - 1]);
      if front.Err? then front
      else
        var range := ranges[|ranges| - 1];
        var start := ResolveFrom(z, Naive(date, range.start), 0, false);
        var end := ResolveFrom(z, Naive(date, range.end), 0, true);
        if start.None? || end.None? then Err(UnresolvedGap)
        else Ok(front.value + RangeSlots(staff, z, now, step, start.value, end.value))
  }

  function StaffDay(staff: Staff, z: Zone, date: int, now: int, stepMinutes: SlotStep): Result<seq<Slot>, ScheduleError>
  {
    SlotsOf(staff, z, date, now, stepMinutes * MINUTE, EffectiveRanges(staff, date))
  }

  lemma SlotsOfSnoc(staff: Staff, z: Zone, date: int, now: int, step: int, ranges: seq<LocalMinuteRange>, i: nat)
    requires step > 0 && i < |ranges|
    requires SlotsOf(staff, z, date, now, step, ranges[..i]).Ok?
    ensures SlotsOf(staff, z, date, now, step, ranges[..i + 1])
         == var start := ResolveFrom(z, Naive(date, ranges[i].start), 0, false);
            var end := ResolveFrom(z, Naive(date, ranges[i].end), 0, true);
            if start.None? || end.None? then Err(UnresolvedGap)
            else Ok(SlotsOf(staff, z, date, now, step, ranges[..i]).value
                    + RangeSlots(staff, z, now, step, start.value, end.value))
  {
    assert ranges[..i + 1][..i] == ranges[..i];
  }

  lemma {:induction false} ErrorStays(staff: Staff, z: Zone, date: int, now: int, step: int,
                                     ranges: seq<LocalMinuteRange>, i: nat)
    requires step > 0 && i <= |ranges|
    requires SlotsOf(staff, z, date, now, step, ranges[..i]).Err?
    ensures SlotsOf(staff, z, date, now, step, ranges) == SlotsOf(staff, z, date, now, step, ranges[..i])
  {
    if i == |ranges| {
      assert ranges[..i] == ranges;
    } else {
      assert ranges[..|ranges| - 1][..i] == ranges[..i];
      ErrorStays(staff, z, date, now, step, ranges[..|ranges| - 1], i);
    }
  }

  /** The inner loop: step a cursor through one resolved range. */
  method ProjectRange(staff: Staff, z: Zone, now: int, step: int, rangeStart: int, rangeEnd: int)
      returns (slots: seq<Slot>)
    requires step > 0
    ensures slots == RangeSlots(staff, z, now, step, rangeStart, rangeEnd)
  {
    slots := [];
    var duration := staff.durationMinutes * MINUTE;
    var cursor := rangeStart;
    while cursor + duration <= rangeEnd
      invariant slots + RangeSlots(staff, z, now, step, cursor, rangeEnd)
             == RangeSlots(staff, z, now, step, rangeStart, rangeEnd)
      decreases rangeEnd - cursor
    {
      var slotEnd := cursor + duration;
      var busy := exists b :: b in staff.busyPeriods && cursor < b.endAt && b.startAt < slotEnd;
      if cursor > now && (staff.pausedUntil.None? || cursor >= staff.pausedUntil.value) && !busy {
        slots := slots + [Slot(staff.id, staff.displayName, cursor, slotEnd,
                               LocalTime(Reading(z, cursor), FoldAt(z, cursor)),
                               LocalTime(Reading(z, slotEnd), FoldAt(z, slotEnd)))];
      }
      cursor := cursor + step;
    }
  }

  method ProjectStaffDay(staff: Staff, date: int, z: Zone, now: int, stepMinutes: SlotStep)
      returns (r: Result<seq<Slot>, ScheduleError>)
    ensures r == StaffDay(staff, z, date, now, stepMinutes)
  {
    var ranges := EffectiveWorkRanges(staff, date);
    var slots: seq<Slot> := [];
    var step := stepMinutes * MINUTE;
    for i := 0 to |ranges|
      invariant SlotsOf(staff, z, date, now, step, ranges[..i]) == Ok(slots)
    {
      SlotsOfSnoc(staff, z, date, now, step, ranges, i);
      var start := ResolveBoundary(date, ranges[i].start, z, false);
      var end := ResolveBoundary(date, ranges[i].end, z, true);
      if start.None? || end.None? {
        ErrorStays(staff, z, date, now, step, ranges, i + 1);
        return Err(UnresolvedGap);
      }
      var more := ProjectRange(staff, z, now, step, start.value, end.value);
      slots := slots + more;
    }
    assert ranges[..|ranges|] == ranges;
    return Ok(slots);
  }

  /** The k-th instant of the grid that starts at `start`. */
  function GridPoint(start: int, step: int, k: nat): int { start + k * step }

  lemma NextGridPoint(start: int, step: int, k: nat)
    ensures GridPoint(start + step, step, k) == GridPoint(start, step, k + 1)
  {
    assert (k + 1) * step == k * step + step;
  }

  /** The slot loop is sound and complete: it offers exactly the grid instants whose whole
      duration fits the range, that lie after now and not before the end of the pause, and
      whose interval meets no busy period. */
  lemma {:induction false} RangeSlotsExact(staff: Staff, z: Zone, now: int, step: int, start: int, end: int)
    requires step > 0
    ensures forall s :: s in RangeSlots(staff, z, now, step, start, end) <==>
              exists k: nat ::
                && s == SlotAt(staff, z, GridPoint(start, step, k))
                && GridPoint(start, step, k) + staff.durationMinutes * MINUTE <= end
                && Bookable(staff, now, GridPoint(start, step, k))
    decreases end - start
  {
    var slots := RangeSlots(staff, z, now, step, start, end);
    assert forall k: nat :: GridPoint(start, step, k) >= start;
    if start + staff.durationMinutes * MINUTE <= end {
      RangeSlotsExact(staff, z, now, step, start + step, end);
      var rest := RangeSlots(staff, z, now, step, start + step, end);
      assert GridPoint(start, step, 0) == start;
      forall s ensures s in slots <==>
              exists k: nat ::
                && s == SlotAt(staff, z, GridPoint(start, step, k))
                && GridPoint(start, step, k) + staff.durationMinutes * MINUTE <= end
                && Bookable(staff, now, GridPoint(start, step, k))
      {
        if k: nat :| s == SlotAt(staff, z, GridPoint(start, step, k))
                     && GridPoint(start, step, k) + staff.durationMinutes * MINUTE <= end
                     && Bookable(staff, now, GridPoint(start, step, k)) {
          if k > 0 { NextGridPoint(start, step, k - 1); }
        }
        if s in rest {
          var k: nat :| s == SlotAt(staff, z, GridPoint(start + step, step, k))
                        && GridPoint(start + step, step, k) + staff.durationMinutes * MINUTE <= end
                        && Bookable(staff, now, GridPoint(start + step, step, k));
          NextGridPoint(start, step, k);
        }
      }
    }
  }

  /** Within [lo, hi] and with strictly increasing starts. */
  ghost predicate SlotsAscend(slots: seq<Slot>, lo: int, hi: int) {
    && (forall i :: 0 <= i < |slots| ==> lo <= slots[i].startAt < slots[i].endAt <= hi)
    && (forall i, j :: 0 <= i < j < |slots| ==> slots[i].startAt < slots[j].startAt)
  }

  lemma SlotsAscendCons(first: Slot, rest: seq<Slot>, lo: int, mid: int, hi: int)
    requires lo <= first.startAt < first.endAt <= hi && first.startAt < mid && SlotsAscend(rest, mid, hi)
    ensures SlotsAscend([first] + rest, lo, hi)
  {
    var all := [first] + rest;
    forall i | 0 <= i < |all| ensures lo <= all[i].startAt < all[i].endAt <= hi {
      if i > 0 { assert all[i] == rest[i - 1]; }
    }
    forall i, j | 0 <= i < j < |all| ensures all[i].startAt < all[j].startAt {
      assert all[j] == rest[j - 1];
      if i > 0 { assert all[i] == rest[i - 1]; }
    }
  }

  /** ... and it offers each of them once, in ascending order. */
  lemma {:induction false} RangeSlotsAscend(staff: Staff, z: Zone, now: int, step: int, start: int, end: int)
    requires step > 0
    ensures SlotsAscend(RangeSlots(staff, z, now, step, start, end), start, end)
    decreases end - start
  {
    hide Bookable, Reading, FoldAt, SlotsAscend;
    if start + staff.durationMinutes * MINUTE <= end {
      RangeSlotsAscend(staff, z, now, step, start + step, end);
      var rest := RangeSlots(staff, z, now, step, start + step, end);
      if Bookable(staff, now, start) {
        var first := SlotAt(staff, z, start);
        assert first.startAt == start && start < first.endAt <= end;
        assert RangeSlots(staff, z, now, step, start, end) == [first] + rest;
        SlotsAscendCons(first, rest, start, start + step, end);
      } else {
        assert RangeSlots(staff, z, now, step, start, end) == rest;
        SlotsAscendEarlier(rest, start, start + step, end);
      }
    } else {
      NoSlotsAscend(start, end);
    }
  }

  lemma NoSlotsAscend(lo: int, hi: int)
    ensures SlotsAscend([], lo, hi)
  {
  }

  lemma SlotsAscendEarlier(slots: seq<Slot>, lo: int, mid: int, hi: int)
    requires lo <= mid && SlotsAscend(slots, mid, hi)
    ensures SlotsAscend(slots, lo, hi)
  {
  }
}
