/** One requested day for all bookable masters: eligibility, the merged and sorted slot
    list, and what asking for a single master returns. */
module DayProjection {
  import opened Basics
  import opened Sorting
  import opened TimeZones
  import opened MinuteRanges
  import opened Boundaries
  import opened ScheduleProjection
  import opened WorkingTime

  datatype BusinessType = Solo | Salon

  datatype Projection = Projection(
    localDate: int, eligibleIds: seq<int>, showMasterSelection: bool, slots: seq<Slot>)

  /** Python's order on strings. */
  predicate StringLeq(a: string, b: string) {
    a == [] || (b != [] && (a[0] < b[0] || (a[0] == b[0] && StringLeq(a[1..], b[1..]))))
  }

  lemma {:induction false} StringTotal(a: string, b: string)
    ensures StringLeq(a, b) || StringLeq(b, a)
    ensures StringLeq(a, b) && StringLeq(b, a) ==> a == b
  {
    if a != [] && b != [] && a[0] == b[0] {
      StringTotal(a[1..], b[1..]);
      assert a == [a[0]] + a[1..] && b == [b[0]] + b[1..];
    }
  }

  lemma {:induction false} StringTransitive(a: string, b: string, c: string)
    requires StringLeq(a, b) && StringLeq(b, c)
    ensures StringLeq(a, c)
  {
    if a != [] && a[0] == b[0] == c[0] {
      StringTransitive(a[1..], b[1..], c[1..]);
    }
  }

  /** One string comes before another if it begins it, or has the smaller character at the first
      place at which they differ. */
  lemma {:induction false} StringLeqIff(a: string, b: string)
    ensures StringLeq(a, b) <==>
              a <= b || exists k :: 0 <= k < |a| && k < |b| && a[..k] == b[..k] && a[k] < b[k]
  {
    if a != [] && b != [] && a[0] == b[0] {
      StringLeqIff(a[1..], b[1..]);
      assert a == [a[0]] + a[1..] && b == [b[0]] + b[1..];
      if k :| 0 <= k < |a[1..]| && k < |b[1..]| && a[1..][..k] == b[1..][..k] && a[1..][k] < b[1..][k] {
        assert a[..k + 1] == [a[0]] + a[1..][..k] && b[..k + 1] == [b[0]] + b[1..][..k];
      }
      if k :| 0 <= k < |a| && k < |b| && a[..k] == b[..k] && a[k] < b[k] {
        assert a[1..][..k - 1] == a[..k][1..] && b[1..][..k - 1] == b[..k][1..];
      }
    } else if a != [] && b != [] && a[0] < b[0] {
      assert a[..0] == b[..0];
    } else if k :| a != [] && b != [] && 0 <= k < |a| && k < |b| && a[..k] == b[..k] && a[k] < b[k] {
      assert k > 0 ==> a[..k][0] == b[..k][0];
    }
  }

  /** The order of eligible masters: sort order, case-folded name, id. */
  predicate StaffLeq(fold: string -> string, a: Staff, b: Staff) {
    a.sortOrder < b.sortOrder ||
    (a.sortOrder == b.sortOrder &&
     var x, y := fold(a.displayName), fold(b.displayName);
     if x != y then StringLeq(x, y) else a.id <= b.id)
  }

  function ByStaff(fold: string -> string): (Staff, Staff) -> bool { (a: Staff, b: Staff) => StaffLeq(fold, a, b) }

  lemma StaffLeqIsTotal(fold: string -> string)
    ensures TotalPreorder(ByStaff(fold))
  {
    forall a: Staff, b: Staff ensures StaffLeq(fold, a, b) || StaffLeq(fold, b, a) {
      StringTotal(fold(a.displayName), fold(b.displayName));
    }
    forall a: Staff, b: Staff, c: Staff | StaffLeq(fold, a, b) && StaffLeq(fold, b, c)
      ensures StaffLeq(fold, a, c)
    {
      var x, y, w := fold(a.displayName), fold(b.displayName), fold(c.displayName);
      if a.sortOrder == b.sortOrder == c.sortOrder {
        if x != y && y != w {
          StringTransitive(x, y, w);
          StringTotal(x, y);
          StringTotal(y, w);
        }
      }
    }
  }

  function OrderOf(order: map<int, int>, id: int): int { if id in order then order[id] else 0 }

  /** The order of the slots: start, sort order of the master, master, end. */
  predicate SlotLeq(order: map<int, int>, a: Slot, b: Slot) {
    var p, q := OrderOf(order, a.staffId), OrderOf(order, b.staffId);
    if a.startAt != b.startAt then a.startAt < b.startAt
    else if p != q then p < q
    else if a.staffId != b.staffId then a.staffId < b.staffId
    else a.endAt <= b.endAt
  }

  function BySlot(order: map<int, int>): (Slot, Slot) -> bool { (a, b) => SlotLeq(order, a, b) }

  lemma SlotLeqIsTotal(order: map<int, int>)
    ensures TotalPreorder(BySlot(order))
  {
  }

  function Ids(staff: seq<Staff>): seq<int> {
    seq(|staff|, i requires 0 <= i < |staff| => staff[i].id)
  }

  predicate DistinctIds(staff: seq<Staff>) {
    forall i, j :: 0 <= i < j < |staff| ==> staff[i].id != staff[j].id
  }

  predicate CanBeBooked(s: Staff) { s.isActive && s.isBookable }

  function HasId(id: int): Staff -> bool { (s: Staff) => s.id == id }

  function SlotOf(id: int): Slot -> bool { (slot: Slot) => slot.staffId == id }

  function Eligible(fold: string -> string, staff: seq<Staff>): (r: seq<Staff>)
    ensures forall s :: s in r <==> s in staff && CanBeBooked(s)
  {
    SortPermutes(ByStaff(fold), Filter(CanBeBooked, staff));
    FilterKeeps(CanBeBooked, staff);
    Sort(ByStaff(fold), Filter(CanBeBooked, staff))
  }

  /** The masters whose day is projected: all of them, or the requested one. */
  function Chosen(eligible: seq<Staff>, requested: Option<int>): (r: seq<Staff>)
    ensures forall s :: s in r <==> s in eligible && (requested.Some? ==> s.id == requested.value)
  {
    if requested.None? then eligible
    else
      FilterKeeps(HasId(requested.value), eligible);
      Filter(HasId(requested.value), eligible)
  }

  /** The slots of one master on the requested day. */
  function DayOf(z: Zone, date: int, now: int, step: SlotStep): Staff -> Result<seq<Slot>, ScheduleError> {
    (s: Staff) => StaffDay(s, z, date, now, step)
  }

  /** All days one after another, or the first error. */
  function SlotsOfAll(day: Staff -> Result<seq<Slot>, ScheduleError>, staff: seq<Staff>)
      : Result<seq<Slot>, ScheduleError>
  {
    if staff == [] then Ok([])
    else
      var front := SlotsOfAll(day, staff[..|staff| - 1]);
      var last := day(staff[|staff| - 1]);
      if front.Err? then front else if last.Err? then last else Ok(front.value + last.value)
  }

  function SortOrders(staff: seq<Staff>): map<int, int> {
    map s | s in staff :: s.id := OrderIn(staff, s.id)
  }

  /** The sort order recorded for an id; a later entry for the same id would win. */
  function OrderIn(staff: seq<Staff>, id: int): int {
    if staff == [] then 0
    else if staff[|staff| - 1].id == id then staff[|staff| - 1].sortOrder
    else OrderIn(staff[..|staff| - 1], id)
  }

  /** The slots of the chosen masters, merged and sorted. */
  function MergedSlots(day: Staff -> Result<seq<Slot>, ScheduleError>, chosen: seq<Staff>)
      : Result<seq<Slot>, ScheduleError>
  {
    var slots := SlotsOfAll(day, chosen);
    if slots.Err? then slots else Ok(Sort(BySlot(SortOrders(chosen)), slots.value))
  }

  /** The checks made before anything is projected, in the order they are made. */
  function Refusal(businessType: BusinessType, zone: Option<Zone>, date: int, now: int, horizonDays: int,
                   eligible: seq<Staff>, step: int): (r: Option<ScheduleError>)
    ensures r.None? ==> zone.Some? && 1 <= step <= 1440 && DistinctIds(eligible)
  {
    if !(1 <= horizonDays <= 365) then Some(BadHorizon)
    else if !(1 <= step <= 1440) then Some(BadStep)
    else if zone.None? then Some(UnknownZone)
    else
      var today := LocalDate(zone.value, now);
      if !(today <= date <= today + horizonDays) then Some(OutsideHorizon)
      else if !DistinctIds(eligible) then Some(DuplicateStaff)
      else if businessType == Solo && |eligible| > 1 then Some(SoloWithManyMasters)
      else None
  }

  /** `project_day`, with the zone already looked up and the case folding given. */
  function ProjectDay(businessType: BusinessType, zone: Option<Zone>, date: int, now: int, horizonDays: int,
                      staff: seq<Staff>, requested: Option<int>, step: int, fold: string -> string)
      : Result<Projection, ScheduleError>
  {
    var eligible := Eligible(fold, staff);
    var refusal := Refusal(businessType, zone, date, now, horizonDays, eligible, step);
    if refusal.Some? then Err(refusal.value)
    else
      var chosen := Chosen(eligible, requested);
      if requested.Some? && chosen == [] then Err(NotBookable)
      else
        var slots := MergedSlots(DayOf(zone.value, date, now, step), chosen);
        if slots.Err? then Err(slots.error)
        else Ok(Projection(date, Ids(eligible), businessType == Salon && |eligible| > 1, slots.value))
  }

  lemma {:induction false} FirstErrorStays(day: Staff -> Result<seq<Slot>, ScheduleError>, staff: seq<Staff>, i: nat)
    requires i <= |staff| && SlotsOfAll(day, staff[..i]).Err?
    ensures SlotsOfAll(day, staff) == SlotsOfAll(day, staff[..i])
    decreases |staff| - i
  {
    if i == |staff| {
      assert staff[..i] == staff;
    } else {
      assert staff[..i + 1][..i] == staff[..i];
      FirstErrorStays(day, staff, i + 1);
    }
  }

  /** The loop over the chosen masters. */
  method ProjectStaff(chosen: seq<Staff>, z: Zone, date: int, now: int, step: SlotStep)
      returns (r: Result<seq<Slot>, ScheduleError>)
    ensures r == MergedSlots(DayOf(z, date, now, step), chosen)
  {
    ghost var dayOf := DayOf(z, date, now, step);
    var slots: seq<Slot> := [];
    for i := 0 to |chosen|
      invariant SlotsOfAll(dayOf, chosen[..i]) == Ok(slots)
    {
      assert chosen[..i + 1][..i] == chosen[..i];
      var day := ProjectStaffDay(chosen[i], date, z, now, step);
      assert day == dayOf(chosen[i]);
      if day.Err? {
        FirstErrorStays(dayOf, chosen, i + 1);
        return Err(day.error);
      }
      slots := slots + day.value;
    }
    assert chosen[..|chosen|] == chosen;
    return Ok(Sort(BySlot(SortOrders(chosen)), slots));
  }

  /** The projector itself: the same day, computed master by master. */
  method Project(businessType: BusinessType, zone: Option<Zone>, date: int, now: int, horizonDays: int,
                 staff: seq<Staff>, requested: Option<int>, step: int, fold: string -> string)
      returns (r: Result<Projection, ScheduleError>)
    ensures r == ProjectDay(businessType, zone, date, now, horizonDays, staff, requested, step, fold)
    ensures Told(businessType, zone, date, now, horizonDays, staff, requested, step, fold, r)
  {
    ProjectDayIsTold(businessType, zone, date, now, horizonDays, staff, requested, step, fold);
    hide Told;
    var eligible := Eligible(fold, staff);
    var refusal := Refusal(businessType, zone, date, now, horizonDays, eligible, step);
    if refusal.Some? { return Err(refusal.value); }
    var chosen := Chosen(eligible, requested);
    if requested.Some? && chosen == [] { return Err(NotBookable); }
    var slots := ProjectStaff(chosen, zone.value, date, now, step);
    if slots.Err? { return Err(slots.error); }
    return Ok(Projection(date, Ids(eligible), businessType == Salon && |eligible| > 1, slots.value));
  }

  // ---------------------------------------------------------------------------
  // What the projection contains

  lemma {:induction false} SlotsOfAllMembers(day: Staff -> Result<seq<Slot>, ScheduleError>, staff: seq<Staff>,
                                             slot: Slot)
    requires SlotsOfAll(day, staff).Ok?
    ensures forall s :: s in staff ==> day(s).Ok?
    ensures slot in SlotsOfAll(day, staff).value <==> exists s :: s in staff && slot in day(s).value
  {
    if staff != [] {
      var front := staff[..|staff| - 1];
      SlotsOfAllMembers(day, front, slot);
      assert staff == front + [staff[|staff| - 1]];
    }
  }

  /** The merged list is the ordered permutation of the chosen masters' slots. */
  lemma MergedIsSortedPermutation(day: Staff -> Result<seq<Slot>, ScheduleError>, chosen: seq<Staff>)
    requires MergedSlots(day, chosen).Ok?
    ensures Ordered(BySlot(SortOrders(chosen)), MergedSlots(day, chosen).value)
    ensures multiset(MergedSlots(day, chosen).value) == multiset(SlotsOfAll(day, chosen).value)
    ensures forall slot :: slot in MergedSlots(day, chosen).value <==>
              exists s :: s in chosen && day(s).Ok? && slot in day(s).value
  {
    var order, slots := SortOrders(chosen), SlotsOfAll(day, chosen).value;
    SlotLeqIsTotal(order);
    Sorting.SortOrders(BySlot(order), slots);
    SortPermutes(BySlot(order), slots);
    forall slot ensures slot in MergedSlots(day, chosen).value <==>
              exists s :: s in chosen && day(s).Ok? && slot in day(s).value
    {
      SlotsOfAllMembers(day, chosen, slot);
    }
  }

  /** The day is the sorted permutation of the slots of all eligible masters: nothing is
      added, dropped or duplicated, and the list is ordered by start, then master. */
  lemma DayIsSortedPermutation(businessType: BusinessType, z: Zone, date: int, now: int, horizonDays: int,
                               staff: seq<Staff>, step: SlotStep, fold: string -> string)
    requires ProjectDay(businessType, Some(z), date, now, horizonDays, staff, None, step, fold).Ok?
    ensures var day := ProjectDay(businessType, Some(z), date, now, horizonDays, staff, None, step, fold).value;
            var eligible := Eligible(fold, staff);
            && Ordered(ByStaff(fold), eligible)
            && day.eligibleIds == Ids(eligible)
            && Ordered(BySlot(SortOrders(eligible)), day.slots)
            && multiset(day.slots) == multiset(SlotsOfAll(DayOf(z, date, now, step), eligible).value)
            && (forall slot :: slot in day.slots <==>
                  exists s :: s in eligible && DayOf(z, date, now, step)(s).Ok?
                              && slot in DayOf(z, date, now, step)(s).value)
  {
    StaffLeqIsTotal(fold);
    Sorting.SortOrders(ByStaff(fold), Filter(CanBeBooked, staff));
    MergedIsSortedPermutation(DayOf(z, date, now, step), Eligible(fold, staff));
  }

  // The same in columns of the request and of the masters.

  ghost predicate Bookables(s: Staff) { s.isActive && s.isBookable }

  /** Two bookable masters carry one id. */
  ghost predicate IdTwice(staff: seq<Staff>) {
    exists i, j :: 0 <= i < j < |staff| && staff[i].id == staff[j].id && Bookables(staff[i]) && Bookables(staff[j])
  }

  /** More than one bookable master. */
  ghost predicate ManyBookable(staff: seq<Staff>) {
    exists i, j :: 0 <= i < j < |staff| && Bookables(staff[i]) && Bookables(staff[j])
  }

  ghost predicate SomeBookable(staff: seq<Staff>, requested: Option<int>) {
    exists s :: s in staff && Bookables(s) && (requested.Some? ==> s.id == requested.value)
  }

  /** A bookable master, the one asked for if one is, has a range whose boundary does not resolve. */
  ghost predicate SomeUnresolved(staff: seq<Staff>, requested: Option<int>, z: Zone, date: int) {
    exists s, range :: s in staff && Bookables(s) && (requested.Some? ==> s.id == requested.value)
                       && range in EffectiveRanges(s, date) && !Resolved(z, date, range)
  }

  /** The error of a request, if any: the first of these tests that it fails. */
  ghost function FirstError(businessType: BusinessType, zone: Option<Zone>, date: int, now: int, horizonDays: int,
                            staff: seq<Staff>, requested: Option<int>, step: int): Option<ScheduleError>
  {
    if horizonDays < 1 || 365 < horizonDays then Some(BadHorizon)
    else if step < 1 || 1440 < step then Some(BadStep)
    else if zone.None? then Some(UnknownZone)
    else if date < LocalDate(zone.value, now) || LocalDate(zone.value, now) + horizonDays < date
    then Some(OutsideHorizon)
    else if IdTwice(staff) then Some(DuplicateStaff)
    else if businessType == Solo && ManyBookable(staff) then Some(SoloWithManyMasters)
    else if requested.Some? && !SomeBookable(staff, requested) then Some(NotBookable)
    else if SomeUnresolved(staff, requested, zone.value, date) then Some(UnresolvedGap)
    else None
  }

  /** Whether the slot is one that a bookable master, the one asked for if one is, offers. */
  ghost predicate OfferedBy(staff: seq<Staff>, requested: Option<int>, z: Zone, date: int, now: int, step: int,
                            slot: Slot)
  {
    exists s, range, k: nat ::
      s in staff && Bookables(s) && (requested.Some? ==> s.id == requested.value)
      && range in EffectiveRanges(s, date) && Offers(s, z, date, now, step * MINUTE, range, k, slot)
  }

  /** By start, then sort order and id of the masters, then end. */
  ghost predicate InSlotOrder(staff: seq<Staff>, a: Slot, b: Slot) {
    forall s, q ::
      (s in staff && q in staff && Bookables(s) && Bookables(q) && s.id == a.staffId && q.id == b.staffId) ==>
      || a.startAt < b.startAt
      || (a.startAt == b.startAt
          && (s.sortOrder < q.sortOrder
              || (s.sortOrder == q.sortOrder && (s.id < q.id || (s.id == q.id && a.endAt <= b.endAt)))))
  }

  /** The ids of all bookable masters, each once for every time it is listed, by sort order,
      folded name and id. */
  ghost predicate ListsBookable(fold: string -> string, staff: seq<Staff>, ids: seq<int>) {
    exists list: seq<Staff> ::
      && |list| == |ids| && (forall i :: 0 <= i < |ids| ==> ids[i] == list[i].id)
      && (forall s: Staff :: multiset(list)[s] == if Bookables(s) then multiset(staff)[s] else 0)
      && forall i, j :: 0 <= i < j < |list| ==>
           || list[i].sortOrder < list[j].sortOrder
           || (list[i].sortOrder == list[j].sortOrder
               && if fold(list[i].displayName) == fold(list[j].displayName) then list[i].id <= list[j].id
                  else StringLeq(fold(list[i].displayName), fold(list[j].displayName)))
  }

  /** The whole answer to a request. */
  ghost predicate Told(businessType: BusinessType, zone: Option<Zone>, date: int, now: int, horizonDays: int,
                       staff: seq<Staff>, requested: Option<int>, step: int, fold: string -> string,
                       r: Result<Projection, ScheduleError>)
  {
    var error := FirstError(businessType, zone, date, now, horizonDays, staff, requested, step);
    if error.Some? then r == Err(error.value)
    else
      && r.Ok? && zone.Some? && r.value.localDate == date
      && (r.value.showMasterSelection <==> businessType == Salon && ManyBookable(staff))
      && ListsBookable(fold, staff, r.value.eligibleIds)
      && (forall slot :: slot in r.value.slots <==> OfferedBy(staff, requested, zone.value, date, now, step, slot))
      && forall i, j :: 0 <= i < j < |r.value.slots| ==> InSlotOrder(staff, r.value.slots[i], r.value.slots[j])
  }

  lemma {:induction false} FilterCounts(p: Staff -> bool, xs: seq<Staff>, s: Staff)
    ensures multiset(Filter<Staff>(p, xs))[s] == if p(s) then multiset(xs)[s] else 0
  {
    if xs != [] {
      var x, rest := xs[0], xs[1..];
      FilterCounts(p, rest, s);
      Sorting.FilterCons<Staff>(p, x, rest);
      assert xs == [x] + rest;
      assert multiset(xs) == multiset{x} + multiset(rest);
    }
  }

  /** Some element is listed at two places. */
  lemma {:induction false} ListedTwice(xs: seq<Staff>, s: Staff) returns (i: int, j: int)
    requires multiset(xs)[s] >= 2
    ensures 0 <= i < j < |xs| && xs[i] == s && xs[j] == s
  {
    var x, rest := xs[0], xs[1..];
    assert xs == [x] + rest;
    if x == s {
      assert s in multiset(rest);
      var k :| 0 <= k < |rest| && rest[k] == s;
      i, j := 0, k + 1;
    } else {
      i, j := ListedTwice(rest, s);
      i, j := i + 1, j + 1;
    }
  }

  lemma TwicePermuted(xs: seq<Staff>, ys: seq<Staff>)
    requires multiset(xs) == multiset(ys) && !DistinctIds(ys)
    ensures !DistinctIds(xs)
  {
    var i, j :| 0 <= i < j < |ys| && ys[i].id == ys[j].id;
    if ys[i] == ys[j] {
      var before, after := ys[..j], ys[j..];
      assert ys == before + after && before[i] == ys[i] && after[0] == ys[i];
      assert before[i] in multiset(before) && after[0] in multiset(after);
      assert multiset(ys) == multiset(before) + multiset(after);
      var k, m := ListedTwice(xs, ys[i]);
    } else {
      assert ys[i] in multiset(xs) && ys[j] in multiset(xs);
      var k :| 0 <= k < |xs| && xs[k] == ys[i];
      var m :| 0 <= m < |xs| && xs[m] == ys[j];
    }
  }

  lemma {:induction false} DistinctIff(staff: seq<Staff>)
    ensures DistinctIds(Filter(CanBeBooked, staff)) <==> !IdTwice(staff)
    ensures |Filter(CanBeBooked, staff)| > 1 <==> ManyBookable(staff)
    ensures |Filter(CanBeBooked, staff)| > 0 <==> exists s :: s in staff && Bookables(s)
  {
    if staff != [] {
      var x, rest := staff[0], staff[1..];
      DistinctIff(rest);
      FilterKeeps(CanBeBooked, rest);
      Sorting.FilterCons(CanBeBooked, x, rest);
      assert staff == [x] + rest;
      ConsTwice(x, rest);
      ConsMany(x, rest);
      assert forall s :: s in staff <==> s == x || s in rest;
      ConsDistinct(x, Filter(CanBeBooked, rest));
      hide IdTwice, ManyBookable, DistinctIds, Filter;
      if CanBeBooked(x) {
        assert Filter(CanBeBooked, staff) == [x] + Filter(CanBeBooked, rest);
      } else {
        assert Filter(CanBeBooked, staff) == Filter(CanBeBooked, rest);
      }
    }
  }

  lemma ConsDistinct(x: Staff, xs: seq<Staff>)
    ensures DistinctIds([x] + xs) <==> DistinctIds(xs) && forall s :: s in xs ==> s.id != x.id
  {
    var all := [x] + xs;
    if DistinctIds(all) {
      forall i, j | 0 <= i < j < |xs| ensures xs[i].id != xs[j].id {
        assert all[i + 1].id != all[j + 1].id;
      }
      forall s | s in xs ensures s.id != x.id {
        var k :| 0 <= k < |xs| && xs[k] == s;
        assert all[0].id != all[k + 1].id;
      }
    }
  }

  lemma ConsTwice(x: Staff, xs: seq<Staff>)
    ensures IdTwice([x] + xs) <==>
              IdTwice(xs) || (Bookables(x) && exists s :: s in xs && Bookables(s) && s.id == x.id)
  {
    var all := [x] + xs;
    if i, j :| 0 <= i < j < |xs| && xs[i].id == xs[j].id && Bookables(xs[i]) && Bookables(xs[j]) {
      assert all[i + 1] == xs[i] && all[j + 1] == xs[j];
    }
    if s :| s in xs && Bookables(s) && s.id == x.id {
      var k :| 0 <= k < |xs| && xs[k] == s;
      assert all[0] == x && all[k + 1] == s;
    }
    if i, j :| 0 <= i < j < |all| && all[i].id == all[j].id && Bookables(all[i]) && Bookables(all[j]) {
      assert all[j] == xs[j - 1] && xs[j - 1] in xs;
      if i > 0 { assert all[i] == xs[i - 1]; }
    }
  }

  lemma ConsMany(x: Staff, xs: seq<Staff>)
    ensures ManyBookable([x] + xs) <==> ManyBookable(xs) || (Bookables(x) && exists s :: s in xs && Bookables(s))
  {
    var all := [x] + xs;
    if i, j :| 0 <= i < j < |xs| && Bookables(xs[i]) && Bookables(xs[j]) {
      assert all[i + 1] == xs[i] && all[j + 1] == xs[j];
    }
    if s :| s in xs && Bookables(s) {
      var k :| 0 <= k < |xs| && xs[k] == s;
      assert all[0] == x && all[k + 1] == s;
    }
    if i, j :| 0 <= i < j < |all| && Bookables(all[i]) && Bookables(all[j]) {
      assert all[j] == xs[j - 1] && xs[j - 1] in xs;
      if i > 0 { assert all[i] == xs[i - 1]; }
    }
  }

  lemma EligibleIsTold(fold: string -> string, staff: seq<Staff>)
    ensures var eligible := Eligible(fold, staff);
            && (DistinctIds(eligible) <==> !IdTwice(staff)) && (|eligible| > 1 <==> ManyBookable(staff))
            && ListsBookable(fold, staff, Ids(eligible))
  {
    var eligible, found := Eligible(fold, staff), Filter(CanBeBooked, staff);
    EligibleIsListed(fold, staff);
    SortPermutes(ByStaff(fold), found);
    DistinctIff(staff);
    hide IdTwice, ManyBookable, ListsBookable, Filter, Sort, StaffLeq;
    if !DistinctIds(eligible) { TwicePermuted(found, eligible); }
    if !DistinctIds(found) { TwicePermuted(eligible, found); }
  }

  lemma EligibleIsListed(fold: string -> string, staff: seq<Staff>)
    ensures ListsBookable(fold, staff, Ids(Eligible(fold, staff)))
  {
    var eligible, found := Eligible(fold, staff), Filter(CanBeBooked, staff);
    SortPermutes(ByStaff(fold), found);
    forall s: Staff ensures multiset(eligible)[s] == if Bookables(s) then multiset(staff)[s] else 0 {
      FilterCounts(CanBeBooked, staff, s);
    }
    StaffLeqIsTotal(fold);
    Sorting.SortOrders(ByStaff(fold), found);
    hide Eligible, Filter, Sort, StringLeq, Bookables;
    forall i, j | 0 <= i < j < |eligible| ensures StaffLeq(fold, eligible[i], eligible[j]) {
      assert ByStaff(fold)(eligible[i], eligible[j]);
    }
  }

  lemma {:induction false} OnlyUnresolved(staff: Staff, z: Zone, date: int, now: int, step: int,
                                          ranges: seq<LocalMinuteRange>)
    requires step > 0 && SlotsOf(staff, z, date, now, step, ranges).Err?
    ensures SlotsOf(staff, z, date, now, step, ranges) == Err(UnresolvedGap)
  {
    var front := ranges[..|ranges| - 1];
    if SlotsOf(staff, z, date, now, step, front).Err? {
      OnlyUnresolved(staff, z, date, now, step, front);
    }
  }

  lemma {:induction false} AllDaysOrNone(day: Staff -> Result<seq<Slot>, ScheduleError>, chosen: seq<Staff>)
    requires forall s: Staff :: day(s).Err? ==> day(s).error == UnresolvedGap
    ensures SlotsOfAll(day, chosen).Ok? <==> forall s :: s in chosen ==> day(s).Ok?
    ensures SlotsOfAll(day, chosen).Err? ==> SlotsOfAll(day, chosen) == Err(UnresolvedGap)
  {
    if chosen != [] {
      var front, last := chosen[..|chosen| - 1], chosen[|chosen| - 1];
      AllDaysOrNone(day, front);
      assert chosen == front + [last];
      assert forall s :: s in chosen <==> s in front || s == last;
    }
  }

  lemma MergedIsTold(staff: seq<Staff>, fold: string -> string, requested: Option<int>, z: Zone, date: int, now: int,
                     step: SlotStep)
    ensures var merged := MergedSlots(DayOf(z, date, now, step), Chosen(Eligible(fold, staff), requested));
            && (merged.Err? <==> SomeUnresolved(staff, requested, z, date))
            && (merged.Err? ==> merged == Err(UnresolvedGap))
            && (merged.Ok? ==>
                  forall slot :: slot in merged.value <==> OfferedBy(staff, requested, z, date, now, step, slot))
  {
    var day, chosen := DayOf(z, date, now, step), Chosen(Eligible(fold, staff), requested);
    forall s: Staff ensures day(s).Err? ==> day(s).error == UnresolvedGap {
      if day(s).Err? { OnlyUnresolved(s, z, date, now, step * MINUTE, EffectiveRanges(s, date)); }
    }
    forall s: Staff
      ensures day(s).Ok? <==> forall range :: range in EffectiveRanges(s, date) ==> Resolved(z, date, range)
    {
      StaffDayExact(s, z, date, now, step);
    }
    AllDaysOrNone(day, chosen);
    assert forall s :: s in chosen <==> s in staff && Bookables(s) && (requested.Some? ==> s.id == requested.value);
    hide Eligible, Chosen, StaffDay, EffectiveRanges, Offers, Resolved;
    if MergedSlots(day, chosen).Ok? {
      MergedIsSortedPermutation(day, chosen);
      forall slot ensures slot in MergedSlots(day, chosen).value <==>
                          OfferedBy(staff, requested, z, date, now, step, slot)
      {
        OfferedIff(staff, requested, z, date, now, step, chosen, slot);
      }
    }
  }

  lemma OfferedIff(staff: seq<Staff>, requested: Option<int>, z: Zone, date: int, now: int, step: SlotStep,
                   chosen: seq<Staff>, slot: Slot)
    requires forall s :: s in chosen <==> s in staff && Bookables(s) && (requested.Some? ==> s.id == requested.value)
    requires forall s :: s in chosen ==> StaffDay(s, z, date, now, step).Ok?
    ensures (exists s :: s in chosen && slot in StaffDay(s, z, date, now, step).value) <==>
              OfferedBy(staff, requested, z, date, now, step, slot)
  {
    forall s | s in chosen
      ensures slot in StaffDay(s, z, date, now, step).value <==>
                OffersSome(s, z, date, now, step * MINUTE, EffectiveRanges(s, date), slot)
    {
      StaffDayExact(s, z, date, now, step);
    }
    hide StaffDay, EffectiveRanges, Offers;
    if s :| s in chosen && slot in StaffDay(s, z, date, now, step).value {
      assert OffersSome(s, z, date, now, step * MINUTE, EffectiveRanges(s, date), slot);
    }
    if OfferedBy(staff, requested, z, date, now, step, slot) {
      var s, range, k: nat :|
        s in staff && Bookables(s) && (requested.Some? ==> s.id == requested.value)
        && range in EffectiveRanges(s, date) && Offers(s, z, date, now, step * MINUTE, range, k, slot);
      assert OffersSome(s, z, date, now, step * MINUTE, EffectiveRanges(s, date), slot);
    }
  }

  /** The order of the merged slots, told by their masters. */
  lemma OrderIsTold(staff: seq<Staff>, chosen: seq<Staff>, a: Slot, b: Slot)
    requires DistinctIds(chosen) && SlotLeq(SortOrders(chosen), a, b)
    requires forall s :: s in staff && Bookables(s) && (s.id == a.staffId || s.id == b.staffId) ==> s in chosen
    ensures InSlotOrder(staff, a, b)
  {
    forall s, q | s in staff && q in staff && Bookables(s) && Bookables(q) && s.id == a.staffId && q.id == b.staffId
      ensures OrderOf(SortOrders(chosen), s.id) == s.sortOrder && OrderOf(SortOrders(chosen), q.id) == q.sortOrder
    {
      OrderInIs(chosen, s);
      OrderInIs(chosen, q);
    }
  }

  lemma SlotsAreInOrder(staff: seq<Staff>, fold: string -> string, requested: Option<int>, z: Zone, date: int, now: int,
                        step: SlotStep)
    requires !IdTwice(staff)
    requires MergedSlots(DayOf(z, date, now, step), Chosen(Eligible(fold, staff), requested)).Ok?
    ensures var slots := MergedSlots(DayOf(z, date, now, step), Chosen(Eligible(fold, staff), requested)).value;
            forall i, j :: 0 <= i < j < |slots| ==> InSlotOrder(staff, slots[i], slots[j])
  {
    var eligible := Eligible(fold, staff);
    var day, chosen := DayOf(z, date, now, step), Chosen(eligible, requested);
    var slots := MergedSlots(day, chosen).value;
    MergedIsSortedPermutation(day, chosen);
    EligibleIsTold(fold, staff);
    ChosenStayDistinct(eligible, requested);
    forall i, j | 0 <= i < j < |slots| ensures InSlotOrder(staff, slots[i], slots[j]) {
      assert BySlot(SortOrders(chosen))(slots[i], slots[j]);
      assert slots[i] in slots && slots[j] in slots;
      var p :| p in chosen && day(p).Ok? && slots[i] in day(p).value;
      var q :| q in chosen && day(q).Ok? && slots[j] in day(q).value;
      SlotsCarryTheirMaster(p, z, date, now, step);
      SlotsCarryTheirMaster(q, z, date, now, step);
      forall s | s in staff && Bookables(s) && (s.id == slots[i].staffId || s.id == slots[j].staffId)
        ensures s in chosen
      {
        assert s in eligible;
      }
      OrderIsTold(staff, chosen, slots[i], slots[j]);
    }
  }

  lemma ChosenStayDistinct(eligible: seq<Staff>, requested: Option<int>)
    requires DistinctIds(eligible)
    ensures DistinctIds(Chosen(eligible, requested))
  {
    if requested.Some? { DistinctFilter(eligible, requested.value); }
  }

  lemma ChosenIsTold(fold: string -> string, staff: seq<Staff>, requested: Option<int>)
    ensures Chosen(Eligible(fold, staff), requested) != [] <==> SomeBookable(staff, requested)
  {
    var chosen := Chosen(Eligible(fold, staff), requested);
    if chosen != [] { assert chosen[0] in chosen; }
  }

  /** The projection is told completely by the request and the masters' columns. */
  lemma ProjectDayIsTold(businessType: BusinessType, zone: Option<Zone>, date: int, now: int, horizonDays: int,
                         staff: seq<Staff>, requested: Option<int>, step: int, fold: string -> string)
    ensures Told(businessType, zone, date, now, horizonDays, staff, requested, step, fold,
                 ProjectDay(businessType, zone, date, now, horizonDays, staff, requested, step, fold))
  {
    EligibleIsTold(fold, staff);
    ChosenIsTold(fold, staff, requested);
    hide IdTwice, ManyBookable, SomeBookable, SomeUnresolved, ListsBookable, OfferedBy, InSlotOrder, Eligible, Chosen,
      MergedSlots, DistinctIds, LocalDate, Ids;
    var eligible := Eligible(fold, staff);
    if zone.Some? && 1 <= step <= 1440 {
      MergedIsTold(staff, fold, requested, zone.value, date, now, step);
      if DistinctIds(eligible) && MergedSlots(DayOf(zone.value, date, now, step), Chosen(eligible, requested)).Ok? {
        SlotsAreInOrder(staff, fold, requested, zone.value, date, now, step);
      }
    }
  }

  /** What a slot of the day tells its client: it belongs to a bookable master (the one asked for),
      lies after now and the pause, lasts that master's duration, and at every instant of it the
      master is not busy; and where the boundaries of the master's day are clear, every instant
      reads as working time of the date and as no break. */
  lemma DaySlotsAreSound(businessType: BusinessType, z: Zone, date: int, now: int, horizonDays: int, staff: seq<Staff>,
                         requested: Option<int>, step: SlotStep, fold: string -> string, slot: Slot)
      returns (s: Staff)
    requires ProjectDay(businessType, Some(z), date, now, horizonDays, staff, requested, step, fold).Ok?
    requires slot in ProjectDay(businessType, Some(z), date, now, horizonDays, staff, requested, step, fold).value.slots
    ensures s in staff && CanBeBooked(s) && s.id == slot.staffId && (requested.Some? ==> s.id == requested.value)
    ensures now < slot.startAt && slot.endAt - slot.startAt == s.durationMinutes * MINUTE
    ensures s.pausedUntil.Some? ==> s.pausedUntil.value <= slot.startAt
    ensures forall b, u :: b in s.busyPeriods && slot.startAt <= u < slot.endAt ==> !b.Includes(u)
    ensures Regular(z) && WholeMinutes(z) && BoundariesClear(s, z, date) ==>
              forall u :: slot.startAt <= u < slot.endAt ==> ReadsAsWork(s, z, date, u)
  {
    var eligible := Eligible(fold, staff);
    var chosen := Chosen(eligible, requested);
    var day := DayOf(z, date, now, step);
    MergedIsSortedPermutation(day, chosen);
    s :| s in chosen && day(s).Ok? && slot in day(s).value;
    SlotsAreFree(s, z, date, now, step, slot);
    if Regular(z) && WholeMinutes(z) && BoundariesClear(s, z, date) {
      forall u | slot.startAt <= u < slot.endAt ensures ReadsAsWork(s, z, date, u) {
        SlotsAreWorkingTime(s, z, date, now, step, slot, u);
      }
    }
  }

  lemma SlotsCarryTheirMaster(staff: Staff, z: Zone, date: int, now: int, step: SlotStep)
    requires StaffDay(staff, z, date, now, step).Ok?
    ensures forall slot :: slot in StaffDay(staff, z, date, now, step).value ==> slot.staffId == staff.id
  {
    RangesCarryTheirMaster(staff, z, date, now, step * MINUTE, EffectiveRanges(staff, date));
  }

  lemma {:induction false} RangesCarryTheirMaster(staff: Staff, z: Zone, date: int, now: int, step: int,
                                                  ranges: seq<MinuteRanges.LocalMinuteRange>)
    requires step > 0
    requires SlotsOf(staff, z, date, now, step, ranges).Ok?
    ensures forall slot :: slot in SlotsOf(staff, z, date, now, step, ranges).value ==> slot.staffId == staff.id
  {
    if ranges != [] {
      RangesCarryTheirMaster(staff, z, date, now, step, ranges[..|ranges| - 1]);
      var range := ranges[|ranges| - 1];
      var start := ResolveFrom(z, Naive(date, range.start), 0, false);
      var end := ResolveFrom(z, Naive(date, range.end), 0, true);
      RangeSlotsExact(staff, z, now, step, start.value, end.value);
    }
  }

  lemma {:induction false} FilterAllOrNone<T>(p: T -> bool, xs: seq<T>, all: bool)
    requires forall x :: x in xs ==> p(x) == all
    ensures Filter(p, xs) == if all then xs else []
  {
    if xs != [] {
      assert xs == [xs[0]] + xs[1..];
      FilterAllOrNone(p, xs[1..], all);
    }
  }

  /** Every slot of a master's day names that master. */
  ghost predicate NamesItsMaster(day: Staff -> Result<seq<Slot>, ScheduleError>) {
    forall s, slot :: day(s).Ok? && slot in day(s).value ==> slot.staffId == s.id
  }

  lemma SlotsOfAllSnoc(day: Staff -> Result<seq<Slot>, ScheduleError>, front: seq<Staff>, last: Staff)
    ensures SlotsOfAll(day, front + [last])
         == var before := SlotsOfAll(day, front);
            if before.Err? then before else if day(last).Err? then day(last) else Ok(before.value + day(last).value)
  {
    assert (front + [last])[..|front|] == front;
  }

  /** The slots of one master are what the whole list holds for that master, in order. */
  lemma {:induction false} SlotsOfOne(day: Staff -> Result<seq<Slot>, ScheduleError>, staff: seq<Staff>, id: int)
    requires NamesItsMaster(day) && SlotsOfAll(day, staff).Ok?
    ensures SlotsOfAll(day, Filter(HasId(id), staff)) == Ok(Filter(SlotOf(id), SlotsOfAll(day, staff).value))
  {
    if staff != [] {
      var front, last := staff[..|staff| - 1], staff[|staff| - 1];
      assert staff == front + [last];
      SlotsOfAllSnoc(day, front, last);
      SlotsOfOne(day, front, id);
      FilterConcat(SlotOf(id), SlotsOfAll(day, front).value, day(last).value);
      FilterAllOrNone(SlotOf(id), day(last).value, last.id == id);
      FilterConcat(HasId(id), front, [last]);
      FilterAllOrNone(HasId(id), [last], last.id == id);
      var mine := Filter(HasId(id), front);
      if last.id == id {
        SlotsOfAllSnoc(day, mine, last);
      } else {
        assert mine + [] == mine;
        var kept := Filter(SlotOf(id), SlotsOfAll(day, front).value);
        assert kept + [] == kept;
      }
    }
  }

  lemma {:induction false} OrderInIs(staff: seq<Staff>, s: Staff)
    requires DistinctIds(staff) && s in staff
    ensures OrderIn(staff, s.id) == s.sortOrder
  {
    var last := staff[|staff| - 1];
    if last != s {
      var i :| 0 <= i < |staff| && staff[i] == s;
      assert staff[..|staff| - 1][i] == s;
      OrderInIs(staff[..|staff| - 1], s);
    }
  }

  lemma {:induction false} DistinctFilter(staff: seq<Staff>, id: int)
    requires DistinctIds(staff)
    ensures |Filter(HasId(id), staff)| <= 1
  {
    if staff != [] {
      DistinctFilter(staff[1..], id);
      FilterKeeps(HasId(id), staff[1..]);
      if staff[0].id == id {
        forall s | s in staff[1..] ensures HasId(id)(s) == false {
          var i :| 0 <= i < |staff| - 1 && staff[1..][i] == s;
          assert staff[0].id != staff[i + 1].id;
        }
        FilterAllOrNone(HasId(id), staff[1..], false);
      }
    }
  }

  /** The sort order recorded for a master is the same in the full list and alone. */
  lemma SameOrder(eligible: seq<Staff>, me: Staff)
    requires DistinctIds(eligible) && me in eligible
    ensures SlotOrder(eligible, me.id) == SlotOrder(Filter(HasId(me.id), eligible), me.id)
  {
    var mine := Filter(HasId(me.id), eligible);
    FilterKeeps(HasId(me.id), eligible);
    DistinctFilter(eligible, me.id);
    assert me in mine;
    OrderInIs(eligible, me);
    OrderInIs(mine, me);
  }

  function SlotOrder(staff: seq<Staff>, id: int): int { OrderOf(SortOrders(staff), id) }

  /** Merging one master's slots is filtering everyone's. */
  lemma MergedOfOne(day: Staff -> Result<seq<Slot>, ScheduleError>, eligible: seq<Staff>, me: Staff)
    requires NamesItsMaster(day)
    requires DistinctIds(eligible) && me in eligible && MergedSlots(day, eligible).Ok?
    ensures MergedSlots(day, Filter(HasId(me.id), eligible))
         == Ok(Filter(SlotOf(me.id), MergedSlots(day, eligible).value))
  {
    SlotsOfOne(day, eligible, me.id);
    SameOrder(eligible, me);
    SortedSlotsOf(SlotsOfAll(day, eligible).value, me.id, SortOrders(eligible),
                  SortOrders(Filter(HasId(me.id), eligible)));
  }

  lemma SortedSlotsOf(slots: seq<Slot>, id: int, order: map<int, int>, order': map<int, int>)
    requires OrderOf(order, id) == OrderOf(order', id)
    ensures Filter(SlotOf(id), Sort(BySlot(order), slots)) == Sort(BySlot(order'), Filter(SlotOf(id), slots))
  {
    var some := Filter(SlotOf(id), slots);
    SlotLeqIsTotal(order);
    FilterSort(BySlot(order), SlotOf(id), slots);
    FilterKeeps(SlotOf(id), slots);
    forall a, b | a in some && b in some ensures BySlot(order)(a, b) == BySlot(order')(a, b) {
      assert a.staffId == id && b.staffId == id;
    }
    SortCongruent(BySlot(order), BySlot(order'), some);
  }

  /** Asking for one bookable master gives exactly the full projection filtered to that
      master, in the same order; asking for anyone else is refused. */
  lemma OneMasterIsTheFilteredDay(businessType: BusinessType, z: Zone, date: int, now: int, horizonDays: int,
                                  staff: seq<Staff>, id: int, step: SlotStep, fold: string -> string)
    requires ProjectDay(businessType, Some(z), date, now, horizonDays, staff, None, step, fold).Ok?
    ensures var full := ProjectDay(businessType, Some(z), date, now, horizonDays, staff, None, step, fold).value;
            ProjectDay(businessType, Some(z), date, now, horizonDays, staff, Some(id), step, fold) ==
              if id in full.eligibleIds then Ok(full.(slots := Filter(SlotOf(id), full.slots))) else Err(NotBookable)
  {
    var eligible := Eligible(fold, staff);
    var mine := Chosen(eligible, Some(id));
    if mine == [] {
      forall i | 0 <= i < |eligible| ensures eligible[i].id != id {
        assert eligible[i] in eligible;
      }
    } else {
      var me := mine[0];
      assert me in mine;
      var k :| 0 <= k < |eligible| && eligible[k] == me;
      assert Ids(eligible)[k] == id;
      var day := DayOf(z, date, now, step);
      forall s: Staff, slot | day(s).Ok? && slot in day(s).value ensures slot.staffId == s.id {
        SlotsCarryTheirMaster(s, z, date, now, step);
      }
      MergedOfOne(day, eligible, me);
    }
  }
}
