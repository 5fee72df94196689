/** Local calendar days as UTC intervals: `local_window_to_utc` and `utc_day_bounds`. */
module LocalDays {
  import opened Basics
  import opened TimeZones

  /** A wall reading turned into UTC with fold 0, as `astimezone` does for a plain local time. */
  function WallToUtc(z: Zone, wall: int): int { wall - WallOffset(z, wall, false) }

  function DayStart(z: Zone, date: int): int { WallToUtc(z, date * DAY) }

  function UtcDayBounds(z: Zone, date: int): (int, int) { (DayStart(z, date), DayStart(z, date + 1)) }

  /** Start and end of a window given by a local date, a local time and a duration; the
      duration is added on the wall clock. */
  function LocalWindowToUtc(z: Zone, date: int, time: int, durationMinutes: int): (int, int) {
    (WallToUtc(z, date * DAY + time), WallToUtc(z, date * DAY + time + durationMinutes * MINUTE))
  }

  /** The local date never moves backwards. */
  ghost predicate DateMonotone(z: Zone) {
    forall u, v :: u <= v ==> LocalDate(z, u) <= LocalDate(z, v)
  }

  /** The clock reaches every midnight: it shows it, or it jumps exactly there, having shown the
      microsecond before. */
  ghost predicate MidnightsReached(z: Zone) {
    forall d: int :: Exists(z, d * DAY) || Exists(z, d * DAY - 1)
  }

  /** The bound of every date is the instant at which that date begins. */
  ghost predicate ExactBounds(z: Zone) {
    forall d, u :: LocalDate(z, u) >= d <==> u >= DayStart(z, d)
  }

  /** Fold 0 picks the first instant that shows an existing reading. */
  lemma {:induction false} FoldZeroIsFirst(z: Zone, wall: int, u: int)
    requires Regular(z) && Reading(z, u) == wall
    ensures Reading(z, WallToUtc(z, wall)) == wall && WallToUtc(z, wall) <= u
    decreases |z.transitions|
  {
    if z.transitions != [] && wall < Threshold(z, false) {
      var e := Earlier(z);
      if u < Last(z).at {
        ReadingBelow(z, u);
        assert Reading(e, u) == wall;
        FoldZeroIsFirst(e, wall, u);
      } else {
        var x := wall - FinalOffset(e);
        assert OffsetAt(e, x) == FinalOffset(e);
        FoldZeroIsFirst(e, wall, x);
      }
    } else if z.transitions != [] && u < Last(z).at {
      ReadingBelow(z, u);
    }
  }

  /** A local time turned into UTC never reads earlier than it was given: times inside a gap
      come out after it. */
  lemma {:induction false} WallToUtcReadsOn(z: Zone, wall: int)
    requires Regular(z)
    ensures Reading(z, WallToUtc(z, wall)) >= wall
    decreases |z.transitions|
  {
    if z.transitions != [] && wall < Threshold(z, false) {
      var e := Earlier(z);
      WallToUtcReadsOn(e, wall);
      if WallToUtc(e, wall) >= Last(z).at && wall < Threshold(z, true) {
        LateWall(z, wall);
      }
    }
  }

  /** Below both thresholds of the last transition, fold 0 resolves to an instant at which
      that transition cannot make the clock read less than asked. */
  lemma {:induction false} LateWall(z: Zone, wall: int)
    requires Regular(z) && z.transitions != [] && wall < Threshold(z, true)
    requires WallToUtc(Earlier(z), wall) >= Last(z).at
    ensures wall - WallToUtc(z, wall) <= Last(z).offset
  {
  }

  /** On a zone whose date never moves back, the bound of a date whose midnight exists is
      exactly the instant the date begins. */
  lemma MidnightIsExact(z: Zone, d: int, u: int)
    requires Regular(z) && DateMonotone(z) && Exists(z, d * DAY)
    ensures LocalDate(z, u) >= d <==> u >= DayStart(z, d)
  {
    var m := DayStart(z, d);
    var y :| Reading(z, y) == d * DAY;
    FoldZeroIsFirst(z, d * DAY, y);
    assert LocalDate(z, m) == d;
    if u < m && LocalDate(z, u) >= d {
      assert Reading(z, u) >= d * DAY;
      var x := RereadEarlier(z, u, m);
      FoldZeroIsFirst(z, d * DAY, x);
    }
  }

  /** A window starts at the first instant that shows its local date and time, and ends at the first
      that shows the time its duration later; a time that no instant shows comes out past it. */
  lemma WindowReadsAsAsked(z: Zone, date: int, time: int, durationMinutes: int)
    requires Regular(z)
    ensures var (start, end) := LocalWindowToUtc(z, date, time, durationMinutes);
            && IsFirstAt(z, date * DAY + time, start)
            && IsFirstAt(z, date * DAY + time + durationMinutes * MINUTE, end)
  {
    FirstAt(z, date * DAY + time);
    FirstAt(z, date * DAY + time + durationMinutes * MINUTE);
  }

  ghost predicate IsFirstAt(z: Zone, wall: int, u: int) {
    if Exists(z, wall) then Reading(z, u) == wall && forall v :: Reading(z, v) == wall ==> u <= v
    else Reading(z, u) > wall
  }

  lemma FirstAt(z: Zone, wall: int)
    requires Regular(z)
    ensures IsFirstAt(z, wall, WallToUtc(z, wall))
  {
    WallToUtcReadsOn(z, wall);
    forall v | Reading(z, v) == wall
      ensures Reading(z, WallToUtc(z, wall)) == wall && WallToUtc(z, wall) <= v
    {
      FoldZeroIsFirst(z, wall, v);
    }
  }

  /** A reading that no instant shows lies below the threshold of the last transition. */
  lemma NotShownIsBelow(z: Zone, wall: int)
    requires Regular(z) && !Exists(z, wall)
    ensures z.transitions != [] && wall < Threshold(z, false)
  {
    assert z.transitions == [] ==> Reading(z, wall - z.initial) == wall;
    assert z.transitions != [] && wall >= Threshold(z, false) ==> Reading(z, wall - Last(z).offset) == wall;
  }

  /** A reading shown without the last transition but not with it falls at that transition or
      into its gap. */
  lemma LostInTheGap(z: Zone, wall: int)
    requires Regular(z) && z.transitions != [] && !Exists(z, wall) && Exists(Earlier(z), wall)
    ensures var m := WallToUtc(z, wall);
            && m == WallToUtc(Earlier(z), wall) && m >= Last(z).at
            && OffsetAt(Earlier(z), m) == FinalOffset(Earlier(z)) && m + FinalOffset(Earlier(z)) == wall
            && (m > Last(z).at ==> Last(z).offset > FinalOffset(Earlier(z)))
            && (m == Last(z).at ==> Reading(z, m - 1) == wall - 1)
  {
    NotShownIsBelow(z, wall);
    var e := Earlier(z);
    var y :| Reading(e, y) == wall;
    FoldZeroIsFirst(e, wall, y);
    var m := WallToUtc(z, wall);
    assert m < Last(z).at ==> Reading(z, m) == wall;
    assert m == Last(z).at ==> OffsetAt(e, m - 1) == FinalOffset(e);
  }

  /** Where the clock jumps exactly at a reading, the instant before its resolution shows the
      reading before. */
  lemma {:induction false} JumpStartsHere(z: Zone, wall: int)
    requires Regular(z) && !Exists(z, wall) && Exists(z, wall - 1)
    ensures Reading(z, WallToUtc(z, wall) - 1) == wall - 1
    decreases |z.transitions|
  {
    NotShownIsBelow(z, wall);
    var e, m := Earlier(z), WallToUtc(z, wall);
    var x :| Reading(z, x) == wall - 1;
    assert x >= Last(z).at ==> Reading(z, x + 1) == wall;
    ReadingBelow(z, x);
    if Exists(e, wall) {
      LostInTheGap(z, wall);
    } else {
      assert Reading(e, x) == wall - 1;
      JumpStartsHere(e, wall);
      assert m - 1 >= Last(z).at ==> Reading(e, m) == wall;
    }
  }

  /** Where neither a reading nor the one before is shown, the instant before its resolution
      already shows at least the reading. */
  lemma {:induction false} JumpStartedBefore(z: Zone, wall: int)
    requires Regular(z) && !Exists(z, wall) && !Exists(z, wall - 1)
    ensures Reading(z, WallToUtc(z, wall) - 1) >= wall
    decreases |z.transitions|
  {
    NotShownIsBelow(z, wall);
    var e, m := Earlier(z), WallToUtc(z, wall);
    if Exists(e, wall) {
      LostInTheGap(z, wall);
    } else {
      NeitherBefore(z, wall);
      JumpStartedBefore(e, wall);
    }
  }

  /** A zone that never shows a reading, without its last transition either, never shows the one
      before without it if it does not show that with it. */
  lemma NeitherBefore(z: Zone, wall: int)
    requires Regular(z) && z.transitions != [] && !Exists(Earlier(z), wall) && !Exists(z, wall - 1)
    ensures !Exists(Earlier(z), wall - 1)
  {
    var e := Earlier(z);
    forall x ensures Reading(e, x) != wall - 1 {
      if x < Last(z).at {
        assert Reading(z, x) == Reading(e, x);
      } else {
        assert Reading(e, x + 1) == Reading(e, x) + 1;
      }
    }
  }

  lemma JumpIsExact(z: Zone, d: int, u: int)
    requires Regular(z) && DateMonotone(z) && !Exists(z, d * DAY) && Exists(z, d * DAY - 1)
    ensures LocalDate(z, u) >= d <==> u >= DayStart(z, d)
  {
    hide Regular, WallToUtc, Reading, Exists;
    var m := DayStart(z, d);
    WallToUtcReadsOn(z, d * DAY);
    JumpStartsHere(z, d * DAY);
    DateOfReading(Reading(z, m), d);
    DateOfReading(Reading(z, m - 1), d);
    hide LocalDate;
    if u < m {
      assert LocalDate(z, u) <= LocalDate(z, m - 1);
    } else {
      assert LocalDate(z, m) <= LocalDate(z, u);
    }
  }

  lemma DateOfReading(wall: int, d: int)
    ensures wall / DAY >= d <==> wall >= d * DAY
  {
  }

  /** The bounds that are queried for a date are the instants at which dates begin exactly when
      the local date never moves back and the clock reaches every midnight. */
  lemma BoundsAreExactIff(z: Zone)
    requires Regular(z)
    ensures ExactBounds(z) <==> DateMonotone(z) && MidnightsReached(z)
  {
    if ExactBounds(z) {
      ExactIsMonotone(z);
      forall d: int ensures Exists(z, d * DAY) || Exists(z, d * DAY - 1) {
        assert LocalDate(z, DayStart(z, d) - 1) < d;
        if !Exists(z, d * DAY) && !Exists(z, d * DAY - 1) {
          JumpStartedBefore(z, d * DAY);
        }
      }
    }
    if DateMonotone(z) && MidnightsReached(z) {
      forall d, u ensures LocalDate(z, u) >= d <==> u >= DayStart(z, d) {
        if Exists(z, d * DAY) {
          MidnightIsExact(z, d, u);
        } else {
          assert Exists(z, d * DAY) || Exists(z, d * DAY - 1);
          JumpIsExact(z, d, u);
        }
      }
    }
  }

  /** Exact bounds tile the time line: every instant lies between the bounds of its own
      local date and of no other. */
  lemma DayBoundsTile(z: Zone, u: int, d: int)
    requires ExactBounds(z)
    ensures UtcDayBounds(z, d).0 <= u < UtcDayBounds(z, d).1 <==> d == LocalDate(z, u)
    ensures UtcDayBounds(z, d).1 == UtcDayBounds(z, d + 1).0
  {
    assert LocalDate(z, u) >= d <==> u >= DayStart(z, d);
    assert LocalDate(z, u) >= d + 1 <==> u >= DayStart(z, d + 1);
  }

  /** A window whose end is checked to fall on its date also starts on it, and within the
      bounds that are queried for that date. */
  lemma WindowStaysInItsDay(z: Zone, date: int, time: int, durationMinutes: int)
    requires Regular(z) && ExactBounds(z) && 0 <= time < DAY
    requires var (start, end) := LocalWindowToUtc(z, date, time, durationMinutes);
             start < end && LocalDate(z, end) == date
    ensures var (start, end) := LocalWindowToUtc(z, date, time, durationMinutes);
            && LocalDate(z, start) == date
            && UtcDayBounds(z, date).0 <= start < end < UtcDayBounds(z, date).1
  {
    var (start, end) := LocalWindowToUtc(z, date, time, durationMinutes);
    WallToUtcReadsOn(z, date * DAY + time);
    DayBoundsTile(z, start, date);
    DayBoundsTile(z, end, date);
    assert LocalDate(z, start) >= date;
  }

  /** Intervals that each lie within one local date overlap only on the same date. */
  lemma OverlapSharesTheDate(z: Zone, s1: int, e1: int, s2: int, e2: int)
    requires DateMonotone(z)
    requires LocalDate(z, s1) == LocalDate(z, e1) && LocalDate(z, s2) == LocalDate(z, e2)
    requires s1 < e2 && s2 < e1
    ensures LocalDate(z, s1) == LocalDate(z, s2)
  {
  }

  /** ... so on different dates they do not meet. */
  lemma DatesApart(z: Zone, s1: int, e1: int, s2: int, e2: int)
    requires DateMonotone(z) && s1 < e1 && s2 < e2
    requires LocalDate(z, s1) == LocalDate(z, e1) && LocalDate(z, s2) == LocalDate(z, e2)
    requires LocalDate(z, s1) != LocalDate(z, s2)
    ensures e1 <= s2 || e2 <= s1
  {
    assert LocalDate(z, s1) <= LocalDate(z, s2) ==> s1 < s2;
    assert LocalDate(z, s2) <= LocalDate(z, s1) ==> s2 < s1;
  }

  lemma ExactIsMonotone(z: Zone)
    requires ExactBounds(z)
    ensures DateMonotone(z)
  {
    forall u, v | u <= v ensures LocalDate(z, u) <= LocalDate(z, v) {
      assert u >= DayStart(z, LocalDate(z, u));
    }
  }

  /** Why midnights must be reached: where the clock jumps from 23:30 to 0:30, the last half hour
      of the bound before already belongs to the new date. */
  lemma SkippedMidnightMovesTheBound(z: Zone)
    requires z == Zone(0, [Transition(-30 * MINUTE, 60 * MINUTE)])
    ensures Regular(z) && DateMonotone(z) && !ExactBounds(z)
  {
    assert Earlier(z).transitions == [];
    forall u ensures Reading(z, u) == if u >= -30 * MINUTE then u + 60 * MINUTE else u {
      assert OffsetAt(Earlier(z), u) == 0;
    }
    assert WallOffset(Earlier(z), 0, false) == 0 && Threshold(z, false) == 30 * MINUTE;
    assert DayStart(z, 0) == 0;
    assert LocalDate(z, -1) >= 0;
  }
}
