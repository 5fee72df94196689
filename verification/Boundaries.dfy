/** What the clock shows between the two resolved boundaries of a local range. Ends resolve
    late and starts early, so around a repeated reading it can show more than the range. */
module Boundaries {
  import opened Basics
  import opened TimeZones
  import opened MinuteRanges

  /** The wall reading at the start of a minute, counted from the midnight that begins the date. */
  function MinuteAt(date: int, minute: int): int { (date * 1440 + minute) * MINUTE }

  /** Both boundaries of the range resolve. */
  predicate Resolved(z: Zone, date: int, range: LocalMinuteRange) {
    ResolveFrom(z, Naive(date, range.start), 0, false).Some? && ResolveFrom(z, Naive(date, range.end), 0, true).Some?
  }

  function StartOf(z: Zone, date: int, range: LocalMinuteRange): int
    requires Resolved(z, date, range)
  {
    ResolveFrom(z, Naive(date, range.start), 0, false).value
  }

  function EndOf(z: Zone, date: int, range: LocalMinuteRange): int
    requires Resolved(z, date, range)
  {
    ResolveFrom(z, Naive(date, range.end), 0, true).value
  }

  /** The instant lies between the resolved boundaries. */
  predicate Spans(z: Zone, date: int, range: LocalMinuteRange, u: int) {
    Resolved(z, date, range) && StartOf(z, date, range) <= u < EndOf(z, date, range)
  }

  /** The clock shows the date and a minute of the range. */
  predicate ReadsWithin(z: Zone, date: int, range: LocalMinuteRange, u: int) {
    MinuteAt(date, range.start) <= Reading(z, u) < MinuteAt(date, range.end)
  }

  /** The clock shows this minute of the date. */
  predicate ShowsMinute(z: Zone, date: int, minute: int, u: int) {
    MinuteAt(date, minute) <= Reading(z, u) < MinuteAt(date, minute + 1)
  }

  ghost predicate ShownAfter(z: Zone, u: int, wall: int) { exists v :: u < v && Reading(z, v) == wall }

  ghost predicate ShownBefore(z: Zone, u: int, wall: int) { exists v :: v < u && Reading(z, v) == wall }

  /** Once begun the range does not fall back to the minute before it, and the reading at which
      it ends is not shown before. Both are decided by the instants of one reading each. */
  ghost predicate BoundsClear(z: Zone, date: int, range: LocalMinuteRange) {
    Resolved(z, date, range) ==>
      && !ShownAfter(z, StartOf(z, date, range), MinuteAt(date, range.start - 1))
      && !ShownBefore(z, EndOf(z, date, range), Reading(z, EndOf(z, date, range)))
  }

  /** A minute before the range is not shown after its start, and a minute past it not before
      its end. */
  ghost predicate Misses(z: Zone, date: int, range: LocalMinuteRange, minute: int) {
    Resolved(z, date, range) ==>
      && (minute < range.start ==> !ShownAfter(z, StartOf(z, date, range), MinuteAt(date, minute)))
      && (range.end <= minute ==> !ShownBefore(z, EndOf(z, date, range), MinuteAt(date, minute)))
  }

  lemma NaiveIsMinuteAt(date: int, minute: int)
    requires 0 <= minute <= 1440
    ensures Naive(date, minute) == MinuteAt(date, minute)
  {
    NaiveIsLinear(date, minute);
  }

  lemma {:induction false} OffsetWithinMinute(z: Zone, u: int)
    requires WholeMinutes(z)
    ensures OffsetAt(z, u) % MINUTE == 0
    ensures OffsetAt(z, u - u % MINUTE) == OffsetAt(z, u)
    decreases |z.transitions|
  {
    if z.transitions != [] {
      OffsetWithinMinute(Earlier(z), u);
    }
  }

  /** Instants and readings of whole-minute clocks run through their minutes together. */
  lemma ReadingWithinMinute(z: Zone, u: int)
    requires WholeMinutes(z)
    ensures Reading(z, u) % MINUTE == u % MINUTE
    ensures Reading(z, u - u % MINUTE) == Reading(z, u) - u % MINUTE
  {
    OffsetWithinMinute(z, u);
    SumWithinMinute(u, OffsetAt(z, u));
  }

  lemma SumWithinMinute(u: int, o: int)
    requires o % MINUTE == 0
    ensures (u + o) % MINUTE == u % MINUTE
  {
    assert u + o == (u / MINUTE + o / MINUTE) * MINUTE + u % MINUTE;
  }

  lemma FloorToMinute(wall: int, minute: int) returns (k: int)
    ensures wall - wall % MINUTE == minute * MINUTE + k * MINUTE
    ensures wall < minute * MINUTE <==> k < 0
  {
    k := wall / MINUTE - minute;
    assert wall == wall / MINUTE * MINUTE + wall % MINUTE;
  }

  lemma WholeMinute(minute: int, k: int)
    ensures (minute * MINUTE + k * MINUTE) % MINUTE == 0
  {
    assert minute * MINUTE + k * MINUTE == (minute + k) * MINUTE;
  }

  lemma FirstIsBelow(z: Zone, minute: int, skipped: int, v: int)
    requires WholeMinutes(z) && minute * MINUTE <= Reading(z, v)
    requires forall k :: 0 <= k < skipped ==> !Exists(z, minute * MINUTE + k * MINUTE)
    ensures minute * MINUTE + skipped * MINUTE <= Reading(z, v)
  {
    hide WholeMinutes, Reading;
    ReadingWithinMinute(z, v);
    var k := FloorToMinute(Reading(z, v), minute);
    assert Exists(z, minute * MINUTE + k * MINUTE);
  }

  /** A resolved boundary is a whole minute at or past the one asked for, and the clock never
      shows anything from that one up to it. */
  lemma FirstShown(z: Zone, date: int, minute: int, preferLate: bool, u: int)
    requires Regular(z) && WholeMinutes(z) && 0 <= minute <= 1440
    requires ResolveFrom(z, Naive(date, minute), 0, preferLate) == Some(u)
    ensures u % MINUTE == 0 && MinuteAt(date, minute) <= Reading(z, u)
    ensures forall v :: MinuteAt(date, minute) <= Reading(z, v) ==> Reading(z, u) <= Reading(z, v)
    ensures forall v :: Reading(z, v) == Reading(z, u) ==> if preferLate then v <= u else u <= v
  {
    var naive := Naive(date, minute);
    NaiveIsMinuteAt(date, minute);
    var skipped := ResolveExact(z, naive, 0, preferLate);
    hide ResolveFrom, Naive, Regular, Reading, WholeMinutes;
    ReadingWithinMinute(z, u);
    WholeMinute(date * 1440 + minute, skipped);
    forall v | naive <= Reading(z, v) ensures Reading(z, u) <= Reading(z, v) {
      FirstIsBelow(z, date * 1440 + minute, skipped, v);
    }
  }

  /** Before its start a range reads less than at its start, after its end more than at its end. */
  lemma BoundsOrder(z: Zone, date: int, range: LocalMinuteRange, u: int)
    requires Regular(z) && WholeMinutes(z) && Resolved(z, date, range)
    ensures u < StartOf(z, date, range) ==> Reading(z, u) < Reading(z, StartOf(z, date, range))
    ensures EndOf(z, date, range) < u ==> Reading(z, EndOf(z, date, range)) < Reading(z, u)
  {
    var start, end := StartOf(z, date, range), EndOf(z, date, range);
    FirstShown(z, date, range.start, false, start);
    FirstShown(z, date, range.end, true, end);
    hide ResolveFrom, Reading, Naive;
    if u < start { EarliestOrders(z, start, u); }
    if end < u { LatestOrders(z, end, u); }
  }

  /** Anything shown from the start minute on is shown no earlier than the start. */
  lemma NotBeforeStart(z: Zone, date: int, range: LocalMinuteRange, u: int)
    requires Regular(z) && WholeMinutes(z) && Resolved(z, date, range)
    requires MinuteAt(date, range.start) <= Reading(z, u)
    ensures StartOf(z, date, range) <= u
  {
    FirstShown(z, date, range.start, false, StartOf(z, date, range));
    hide ResolveFrom, Naive, Reading, Regular, WholeMinutes;
    BoundsOrder(z, date, range, u);
  }

  /** Anything shown below the end minute is shown before the end. */
  lemma BeforeEnd(z: Zone, date: int, range: LocalMinuteRange, u: int)
    requires Regular(z) && WholeMinutes(z) && Resolved(z, date, range)
    requires Reading(z, u) < MinuteAt(date, range.end)
    ensures u < EndOf(z, date, range)
  {
    FirstShown(z, date, range.end, true, EndOf(z, date, range));
    hide ResolveFrom, Naive, Reading, Regular, WholeMinutes;
    BoundsOrder(z, date, range, u);
  }

  /** Between its resolved boundaries a range reads as itself exactly when both are clear. */
  lemma ReadsWithinIff(z: Zone, date: int, range: LocalMinuteRange)
    requires Regular(z) && WholeMinutes(z) && Resolved(z, date, range)
    ensures BoundsClear(z, date, range) <==>
              forall u :: Spans(z, date, range, u) ==> ReadsWithin(z, date, range, u)
  {
    hide ResolveFrom, Naive, Reading, Regular, WholeMinutes;
    var start, end := StartOf(z, date, range), EndOf(z, date, range);
    FirstShown(z, date, range.start, false, start);
    FirstShown(z, date, range.end, true, end);
    if BoundsClear(z, date, range) {
      forall u | Spans(z, date, range, u) ensures ReadsWithin(z, date, range, u) {
        ClearReadsWithin(z, date, range, u);
      }
    } else if v :| start < v && Reading(z, v) == MinuteAt(date, range.start - 1) {
      BeforeEnd(z, date, range, v);
      assert Spans(z, date, range, v) && !ReadsWithin(z, date, range, v);
    } else {
      var v :| v < end && Reading(z, v) == Reading(z, end);
      NotBeforeStart(z, date, range, v);
      assert Spans(z, date, range, v) && !ReadsWithin(z, date, range, v);
    }
  }

  lemma ClearReadsWithin(z: Zone, date: int, range: LocalMinuteRange, u: int)
    requires Regular(z) && WholeMinutes(z) && BoundsClear(z, date, range) && Spans(z, date, range, u)
    ensures ReadsWithin(z, date, range, u)
  {
    hide ResolveFrom, Naive, Reading, Regular, WholeMinutes;
    var start, end := StartOf(z, date, range), EndOf(z, date, range);
    FirstShown(z, date, range.start, false, start);
    FirstShown(z, date, range.end, true, end);
    if Reading(z, u) < MinuteAt(date, range.start) {
      var low := u - u % MINUTE;
      ReadingWithinMinute(z, u);
      var k := FloorToMinute(Reading(z, u), date * 1440 + range.start);
      assert start <= low && Reading(z, low) <= MinuteAt(date, range.start - 1);
      var v := DropIsShownAgain(z, start, low, MinuteAt(date, range.start - 1));
    }
    if MinuteAt(date, range.end) <= Reading(z, u) {
      assert forall x :: x < end ==> Reading(z, x) != Reading(z, end);
      EarliestOrders(z, end, u);
    }
  }

  /** Between its resolved boundaries a range never shows a minute outside it exactly when it
      misses that minute. */
  lemma MissesIff(z: Zone, date: int, range: LocalMinuteRange, minute: int)
    requires Regular(z) && WholeMinutes(z) && Resolved(z, date, range) && !range.Covers(minute)
    ensures Misses(z, date, range, minute) <==>
              forall u :: Spans(z, date, range, u) ==> !ShowsMinute(z, date, minute, u)
  {
    hide ResolveFrom, Naive, Reading, Regular, WholeMinutes;
    var start, end := StartOf(z, date, range), EndOf(z, date, range);
    FirstShown(z, date, range.start, false, start);
    FirstShown(z, date, range.end, true, end);
    if Misses(z, date, range, minute) {
      forall u | Spans(z, date, range, u) ensures !ShowsMinute(z, date, minute, u) {
        var low := u - u % MINUTE;
        ReadingWithinMinute(z, u);
        var k := FloorToMinute(Reading(z, u), date * 1440 + minute);
        assert start <= low <= u;
      }
    } else if minute < range.start {
      var v :| start < v && Reading(z, v) == MinuteAt(date, minute);
      BeforeEnd(z, date, range, v);
      assert Spans(z, date, range, v) && ShowsMinute(z, date, minute, v);
    } else {
      var v :| v < end && Reading(z, v) == MinuteAt(date, minute);
      NotBeforeStart(z, date, range, v);
      assert Spans(z, date, range, v) && ShowsMinute(z, date, minute, v);
    }
  }

  /** A range whose resolved readings are shown once is clear. */
  lemma UnrepeatedIsClear(z: Zone, date: int, range: LocalMinuteRange)
    requires Regular(z) && WholeMinutes(z) && Resolved(z, date, range)
    requires !Repeated(z, Reading(z, StartOf(z, date, range))) && !Repeated(z, Reading(z, EndOf(z, date, range)))
    ensures BoundsClear(z, date, range)
  {
    hide ResolveFrom, Naive, Reading, Regular, WholeMinutes;
    var start, end := StartOf(z, date, range), EndOf(z, date, range);
    FirstShown(z, date, range.start, false, start);
    if v :| start < v && Reading(z, v) == MinuteAt(date, range.start - 1) {
      UnrepeatedOrders(z, start, v);
    }
  }
}
