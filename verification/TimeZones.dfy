/** Local clocks. A zone is any finite list of UTC-offset transitions, read as PEP 495
    ("In the DST Fold", "Mind the DST Gap") prescribes and as the `zoneinfo` lookup
    performs it: one list of wall-clock thresholds per value of `fold`.
    Instants, wall readings and offsets are microseconds. */
module TimeZones {
  import opened Basics

  const MINUTE := 60_000_000
  const DAY := 1440 * MINUTE
  /** The number of whole minutes tried past a boundary before it is given up. */
  const MAX_SHIFT := 181

  lemma UnitsInMicroseconds()
    ensures MINUTE == 60 * 1_000_000 && DAY == 24 * 60 * MINUTE && MAX_SHIFT == 3 * 60 + 1
  {
  }

  datatype Transition = Transition(at: int, offset: int)
  datatype Zone = Zone(initial: int, transitions: seq<Transition>)

  function Last(z: Zone): Transition
    requires z.transitions != []
  {
    z.transitions[|z.transitions| - 1]
  }

  /** The zone without its last transition. */
  function Earlier(z: Zone): Zone
    requires z.transitions != []
  {
    Zone(z.initial, z.transitions[..|z.transitions| - 1])
  }

  function FinalOffset(z: Zone): int {
    if z.transitions == [] then z.initial else Last(z).offset
  }

  /** The wall-clock threshold of the last transition for each fold. */
  function Threshold(z: Zone, fold: bool): int
    requires z.transitions != []
  {
    var before, after := FinalOffset(Earlier(z)), Last(z).offset;
    Last(z).at + if fold then Min(before, after) else Max(before, after)
  }

  /** What the threshold lists of a real zone satisfy: the wall-clock disturbance of one
      transition is over before that of the next one begins. */
  ghost predicate Regular(z: Zone)
    decreases |z.transitions|
  {
    z.transitions == [] ||
    (&& Regular(Earlier(z))
     && (Earlier(z).transitions != [] ==>
           && Last(Earlier(z)).at < Last(z).at
           && Threshold(Earlier(z), false) <= Threshold(z, true)))
  }

  /** UTC to local: the offset in force at an instant. */
  function OffsetAt(z: Zone, u: int): int
    decreases |z.transitions|
  {
    if z.transitions == [] then z.initial
    else if u >= Last(z).at then Last(z).offset
    else OffsetAt(Earlier(z), u)
  }

  /** The wall-clock reading at an instant, without its fold. */
  function Reading(z: Zone, u: int): int { u + OffsetAt(z, u) }

  /** UTC to local: is this the second pass through a repeated reading? */
  predicate FoldAt(z: Zone, u: int)
    decreases |z.transitions|
  {
    if z.transitions == [] then false
    else if u >= Last(z).at then FinalOffset(Earlier(z)) - Last(z).offset > u - Last(z).at
    else FoldAt(Earlier(z), u)
  }

  /** Local to UTC: the offset assumed for a wall reading with a given fold. */
  function WallOffset(z: Zone, wall: int, fold: bool): int
    decreases |z.transitions|
  {
    if z.transitions == [] then z.initial
    else if wall >= Threshold(z, fold) then Last(z).offset
    else WallOffset(Earlier(z), wall, fold)
  }

  function LocalDate(z: Zone, u: int): int { Reading(z, u) / DAY }

  ghost predicate Repeated(z: Zone, wall: int) {
    exists u, v :: u < v && Reading(z, u) == wall && Reading(z, v) == wall
  }

  ghost predicate Exists(z: Zone, wall: int) {
    exists u :: Reading(z, u) == wall
  }

  /** Offsets and transitions on whole minutes, as in every rule of the tz database in
      force since civil time dropped local mean time. */
  ghost predicate WholeMinutes(z: Zone) {
    && z.initial % MINUTE == 0
    && (forall t :: t in z.transitions ==> t.at % MINUTE == 0 && t.offset % MINUTE == 0)
  }

  // ---------------------------------------------------------------------------
  // From a wall reading to the instants that show it

  predicate RoundTrips(z: Zone, wall: int, fold: bool) {
    var u := wall - WallOffset(z, wall, fold);
    Reading(z, u) == wall && FoldAt(z, u) == fold
  }

  /** The sorted UTC instants found by trying both folds and keeping those that read back. */
  function ValidUtcInstants(z: Zone, wall: int): seq<int> {
    var first := wall - WallOffset(z, wall, false);
    var second := wall - WallOffset(z, wall, true);
    if RoundTrips(z, wall, false) && RoundTrips(z, wall, true) then
      if first == second then [first] else if first < second then [first, second] else [second, first]
    else if RoundTrips(z, wall, false) then [first]
    else if RoundTrips(z, wall, true) then [second]
    else []
  }

  /** Before the last transition the clock reads less than that transition would replace. */
  lemma {:induction false} ReadingBelow(z: Zone, u: int)
    requires Regular(z) && z.transitions != [] && u < Last(z).at
    ensures Reading(z, u) < Last(z).at + FinalOffset(Earlier(z))
    decreases |z.transitions|
  {
    var e := Earlier(z);
    assert OffsetAt(z, u) == OffsetAt(e, u);
    if e.transitions != [] && u < Last(e).at {
      ReadingBelow(e, u);
    }
  }

  /** Trying both folds finds exactly the instants that show the reading. */
  lemma {:induction false} RoundTripsExactly(z: Zone, wall: int, u: int)
    requires Regular(z)
    ensures Reading(z, u) == wall <==>
            exists fold :: RoundTrips(z, wall, fold) && u == wall - WallOffset(z, wall, fold)
    decreases |z.transitions|
  {
    if z.transitions == [] {
      assert RoundTrips(z, wall, false);
    } else if Reading(z, u) == wall {
      ReadingIsFound(z, u);
    }
  }

  /** The offset assumed for a reading with the fold it is shown with is the one in force. */
  lemma {:induction false} ReadingIsFound(z: Zone, u: int)
    requires Regular(z)
    ensures WallOffset(z, Reading(z, u), FoldAt(z, u)) == OffsetAt(z, u)
    ensures RoundTrips(z, Reading(z, u), FoldAt(z, u))
    decreases |z.transitions|
  {
    if z.transitions == [] {
    } else if u >= Last(z).at {
      var e, wall := Earlier(z), Reading(z, u);
    } else {
      ReadingBelow(z, u);
      ReadingIsFound(Earlier(z), u);
      assert Reading(z, u) < Threshold(z, false);
      if FoldAt(z, u) { FoldBelow(Earlier(z), u); }
    }
  }

  /** The second pass through a repeated hour ends at the transition's upper threshold. */
  lemma {:induction false} FoldBelow(z: Zone, u: int)
    requires Regular(z) && FoldAt(z, u)
    ensures z.transitions != [] && Reading(z, u) < Threshold(z, false)
    decreases |z.transitions|
  {
    if u < Last(z).at {
      FoldBelow(Earlier(z), u);
    }
  }

  /** `_valid_utc_instants` returns exactly the instants at which the clock shows the given
      wall time, in ascending order. */
  lemma ValidUtcInstantsExact(z: Zone, wall: int)
    requires Regular(z)
    ensures forall u :: u in ValidUtcInstants(z, wall) <==> Reading(z, u) == wall
    ensures forall i, j :: 0 <= i < j < |ValidUtcInstants(z, wall)| ==>
              ValidUtcInstants(z, wall)[i] < ValidUtcInstants(z, wall)[j]
    ensures ValidUtcInstants(z, wall) == [] <==> !Exists(z, wall)
    ensures |ValidUtcInstants(z, wall)| == 2 <==> Repeated(z, wall)
  {
    var r := ValidUtcInstants(z, wall);
    forall u ensures u in r <==> Reading(z, u) == wall {
      RoundTripsExactly(z, wall, u);
    }
    if r != [] { assert Reading(z, r[0]) == wall; }
    if |r| == 2 {
      assert r[0] in r && r[1] in r;
      assert Reading(z, r[0]) == wall && Reading(z, r[1]) == wall;
    }
    if Repeated(z, wall) {
      var u, v :| u < v && Reading(z, u) == wall && Reading(z, v) == wall;
      assert u in r && v in r;
    }
  }

  // ---------------------------------------------------------------------------
  // The order of readings

  /** An instant that shows no more than an earlier one repeats a reading. */
  lemma {:induction false} RereadEarlier(z: Zone, v: int, u: int) returns (x: int)
    requires Regular(z) && v < u && Reading(z, u) <= Reading(z, v)
    ensures x < u && Reading(z, x) == Reading(z, u)
    decreases |z.transitions|
  {
    if u < Last(z).at {
      x := RereadEarlier(Earlier(z), v, u);
    } else {
      ReadingBelow(z, v);
      x := Reading(z, u) - FinalOffset(Earlier(z));
      assert OffsetAt(Earlier(z), x) == FinalOffset(Earlier(z));
    }
  }

  /** Before the earliest instant of a reading the clock shows less. */
  lemma EarliestOrders(z: Zone, u: int, v: int)
    requires Regular(z) && forall x :: x < u ==> Reading(z, x) != Reading(z, u)
    requires v < u
    ensures Reading(z, v) < Reading(z, u)
  {
    if Reading(z, u) <= Reading(z, v) {
      var x := RereadEarlier(z, v, u);
    }
  }

  /** After the latest instant of a reading the clock shows more. */
  lemma {:induction false} LatestOrders(z: Zone, u: int, v: int)
    requires Regular(z) && forall x :: u < x ==> Reading(z, x) != Reading(z, u)
    requires u < v
    ensures Reading(z, u) < Reading(z, v)
    decreases |z.transitions|
  {
    if z.transitions != [] {
      if v < Last(z).at {
        ReadingBelow(z, u);
        assert forall x :: x < Last(z).at ==> Reading(z, x) == Reading(Earlier(z), x);
        LatestOrders(Earlier(z), u, v);
      } else if u < Last(z).at && Reading(z, v) <= Reading(z, u) {
        var x := RereadLater(z, u, v, Reading(z, u));
      }
    }
  }

  /** A reading that is shown only once orders the whole time line: the clock shows more
      at every later instant and less at every earlier one. */
  lemma UnrepeatedOrders(z: Zone, u: int, v: int)
    requires Regular(z) && !Repeated(z, Reading(z, u))
    ensures u < v ==> Reading(z, u) < Reading(z, v)
    ensures v < u ==> Reading(z, v) < Reading(z, u)
  {
    if u < v { LatestOrders(z, u, v); }
    if v < u { EarliestOrders(z, u, v); }
  }

  /** If the clock shows no more after the last transition than it did before, it goes on to
      show every reading up to the earlier one again. */
  lemma RereadLater(z: Zone, u: int, v: int, wall: int) returns (x: int)
    requires Regular(z) && z.transitions != [] && u < Last(z).at <= v
    requires Reading(z, v) <= wall <= Reading(z, u)
    ensures v <= x && Reading(z, x) == wall
  {
    x := wall - Last(z).offset;
  }

  /** Fold 1 marks exactly the readings that have been shown before. */
  lemma {:induction false} FoldMeansAgain(z: Zone, u: int)
    requires Regular(z)
    ensures FoldAt(z, u) <==> exists v :: v < u && Reading(z, v) == Reading(z, u)
    decreases |z.transitions|
  {
    if z.transitions != [] {
      var e := Earlier(z);
      if u < Last(z).at {
        assert forall v :: v <= u ==> Reading(z, v) == Reading(e, v);
        FoldMeansAgain(e, u);
      } else if FoldAt(z, u) {
        var v := Last(z).at - 1;
        assert OffsetAt(z, v) == OffsetAt(e, v) == FinalOffset(e);
        var x := RereadEarlier(z, v, u);
      } else if v :| v < u && Reading(z, v) == Reading(z, u) {
        if v < Last(z).at { ReadingBelow(z, v); }
      }
    }
  }

  /** After a drop, the clock shows every reading between the two again. */
  lemma {:induction false} DropIsShownAgain(z: Zone, u: int, v: int, wall: int) returns (x: int)
    requires Regular(z) && u < v && Reading(z, v) <= wall < Reading(z, u)
    ensures v <= x && Reading(z, x) == wall
    decreases |z.transitions|
  {
    if v < Last(z).at {
      ReadingBelow(z, u);
      assert forall y :: y < Last(z).at ==> Reading(z, y) == Reading(Earlier(z), y);
      x := DropIsShownAgain(Earlier(z), u, v, wall);
    } else {
      x := RereadLater(z, u, v, wall);
    }
  }

  // ---------------------------------------------------------------------------
  // Resolving a schedule boundary

  /** The wall reading of a minute of a local date; minute 1440 is the next midnight. */
  function Naive(date: int, minute: int): int {
    (date + minute / 1440) * DAY + (minute % 1440) * MINUTE
  }

  /** The first existing wall minute at or after `naive + shift`, as an instant. */
  function ResolveFrom(z: Zone, naive: int, shift: nat, preferLate: bool): Option<int>
    decreases MAX_SHIFT - shift
  {
    if shift >= MAX_SHIFT then None
    else
      var instants := ValidUtcInstants(z, naive + shift * MINUTE);
      if instants != [] then Some(if preferLate then instants[|instants| - 1] else instants[0])
      else ResolveFrom(z, naive, shift + 1, preferLate)
  }

  lemma HoursAndMinutes(minute: int)
    ensures minute / 60 * 60 + minute % 60 == minute
  {
  }

  method ResolveBoundary(date: int, minute: int, z: Zone, preferLate: bool) returns (r: Option<int>)
    ensures r == ResolveFrom(z, Naive(date, minute), 0, preferLate)
  {
    hide ValidUtcInstants;
    var boundaryDate := date + minute / 1440;
    var minuteInDay := minute % 1440;
    var naive := boundaryDate * DAY + (minuteInDay / 60 * 60 + minuteInDay % 60) * MINUTE;
    HoursAndMinutes(minuteInDay);
    for shift := 0 to MAX_SHIFT
      invariant ResolveFrom(z, Naive(date, minute), 0, preferLate)
             == ResolveFrom(z, naive, shift, preferLate)
    {
      var candidate := naive + shift * MINUTE;
      var instants := ValidUtcInstants(z, candidate);
      if instants != [] {
        return Some(if preferLate then instants[|instants| - 1] else instants[0]);
      }
    }
    return None;
  }

  /** `u` is the earliest or latest instant of the first wall minute at or after `naive`
      that the clock shows at all, that minute being `skipped` minutes on. */
  ghost predicate Resolves(z: Zone, naive: int, preferLate: bool, u: int, skipped: int) {
    && Reading(z, u) == naive + skipped * MINUTE
    && (forall k :: 0 <= k < skipped ==> !Exists(z, naive + k * MINUTE))
    && (forall v :: Reading(z, v) == Reading(z, u) ==> if preferLate then v <= u else u <= v)
  }

  /** `_resolve_boundary` fails exactly when none of the 181 wall minutes exists, and else
      returns the extreme instant of the first one that does. */
  lemma {:induction false} ResolveExact(z: Zone, naive: int, shift: nat, preferLate: bool)
      returns (skipped: int)
    requires Regular(z) && shift <= MAX_SHIFT
    requires forall k :: 0 <= k < shift ==> !Exists(z, naive + k * MINUTE)
    ensures var r := ResolveFrom(z, naive, shift, preferLate);
            if r.Some? then shift <= skipped < MAX_SHIFT && Resolves(z, naive, preferLate, r.value, skipped)
            else forall k :: 0 <= k < MAX_SHIFT ==> !Exists(z, naive + k * MINUTE)
    decreases MAX_SHIFT - shift
  {
    hide Regular, ValidUtcInstants, Reading;
    if shift == MAX_SHIFT {
      skipped := MAX_SHIFT;
    } else {
      var wall := naive + shift * MINUTE;
      ValidUtcInstantsExact(z, wall);
      var instants := ValidUtcInstants(z, wall);
      if instants != [] {
        skipped := shift;
        var u := if preferLate then instants[|instants| - 1] else instants[0];
        assert u in instants;
        forall v | Reading(z, v) == Reading(z, u) ensures if preferLate then v <= u else u <= v {
          assert v in instants;
        }
      } else {
        skipped := ResolveExact(z, naive, shift + 1, preferLate);
      }
    }
  }

  /** Later minutes of a day resolve to instants that are no earlier, whatever side of a
      repeated reading each prefers, as long as the first lands on an unrepeated reading. */
  lemma ResolveMonotone(z: Zone, date: int, m1: int, m2: int, late1: bool, late2: bool, u1: int, u2: int)
    requires Regular(z) && 0 <= m1 <= m2 <= 1440
    requires ResolveFrom(z, Naive(date, m1), 0, late1) == Some(u1)
    requires ResolveFrom(z, Naive(date, m2), 0, late2) == Some(u2)
    requires !Repeated(z, Reading(z, u1))
    ensures u1 <= u2
  {
    var n1, n2 := Naive(date, m1), Naive(date, m2);
    var k1 := ResolveExact(z, n1, 0, late1);
    var k2 := ResolveExact(z, n2, 0, late2);
    NaiveIsLinear(date, m1);
    NaiveIsLinear(date, m2);
    var k := m2 - m1 + k2;
    assert Reading(z, u2) == n1 + k * MINUTE;
    assert Exists(z, n1 + k * MINUTE);
    assert k1 <= k;
    if u2 < u1 { UnrepeatedOrders(z, u1, u2); }
  }

  lemma NaiveIsLinear(date: int, minute: int)
    requires 0 <= minute <= 1440
    ensures Naive(date, minute) == date * DAY + minute * MINUTE
  {
  }
}
