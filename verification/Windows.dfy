/** Availability windows of the masters: the calendar, capacity and spacing rules, and the
    transactions that create, reopen, move and remove windows concurrently. */
module Windows {
  import opened Basics
  import opened TimeZones
  import opened LocalDays
  import opened Lifecycles

  datatype Rules = Rules(
    zone: Zone, horizonDays: int, maxWindowsPerDay: int, minimumGapMinutes: int,
    allowSaturday: bool, allowSunday: bool)

  datatype Interval = Interval(startAt: int, endAt: int)

  datatype RuleError =
    | NotPositive | NotInFuture | CrossesMidnight | OutsideHorizon | NoSaturday | NoSunday
    | DayFull | Overlaps | GapTooShort

  function ValidateCalendar(date: int, start: int, end: int, now: int, rules: Rules): Option<RuleError> {
    var today := LocalDate(rules.zone, now);
    if start >= end then Some(NotPositive)
    else if start <= now then Some(NotInFuture)
    else if LocalDate(rules.zone, end) != date then Some(CrossesMidnight)
    else if date < today || date > today + rules.horizonDays then Some(OutsideHorizon)
    else if Weekday(date) == 5 && !rules.allowSaturday then Some(NoSaturday)
    else if Weekday(date) == 6 && !rules.allowSunday then Some(NoSunday)
    else None
  }

  /** The calendar accepts a window exactly if it has a length, lies ahead, ends on its date within
      the horizon, and falls on a weekend day only if that is allowed; it names the first failure. */
  lemma CalendarAcceptsIff(date: int, start: int, end: int, now: int, rules: Rules)
    ensures ValidateCalendar(date, start, end, now, rules).None? <==>
            && start < end && now < start && LocalDate(rules.zone, end) == date
            && LocalDate(rules.zone, now) <= date <= LocalDate(rules.zone, now) + rules.horizonDays
            && (Weekday(date) == 5 ==> rules.allowSaturday) && (Weekday(date) == 6 ==> rules.allowSunday)
    ensures ValidateCalendar(date, start, end, now, rules) == Some(NotPositive) <==> end <= start
    ensures ValidateCalendar(date, start, end, now, rules) == Some(NotInFuture) <==> start < end && start <= now
    ensures ValidateCalendar(date, start, end, now, rules) == Some(CrossesMidnight) <==>
            start < end && now < start && LocalDate(rules.zone, end) != date
    ensures ValidateCalendar(date, start, end, now, rules) == Some(NoSaturday) ==>
            Weekday(date) == 5 && !rules.allowSaturday
    ensures ValidateCalendar(date, start, end, now, rules) == Some(NoSunday) ==>
            Weekday(date) == 6 && !rules.allowSunday
    ensures ValidateCalendar(date, start, end, now, rules) == Some(OutsideHorizon) ==>
            date < LocalDate(rules.zone, now) || LocalDate(rules.zone, now) + rules.horizonDays < date
  {
  }

  function Gap(rules: Rules): int { rules.minimumGapMinutes * MINUTE }

  /** Disjoint, with at least the gap between the two. */
  predicate Apart(s1: int, e1: int, s2: int, e2: int, gap: int) { e1 + gap <= s2 || e2 + gap <= s1 }

  /** What the three tests of the spacing loop say about one existing interval. */
  function SpacingProblem(start: int, end: int, i: Interval, gap: int): Option<RuleError> {
    if start < i.endAt && i.startAt < end then Some(Overlaps)
    else if end <= i.startAt && i.startAt - end < gap then Some(GapTooShort)
    else if i.endAt <= start && start - i.endAt < gap then Some(GapTooShort)
    else None
  }

  lemma SpacingIsApart(start: int, end: int, i: Interval, gap: int)
    requires start < end && i.startAt < i.endAt && gap >= 0
    ensures SpacingProblem(start, end, i, gap).None? <==> Apart(start, end, i.startAt, i.endAt, gap)
  {
  }

  /** Accepts exactly when the day is below its cap and the new interval keeps its distance
      from every existing one; otherwise reports the cap first, then the first offender. */
  method ValidateCapacityAndSpacing(start: int, end: int, existing: seq<Interval>, cap: int, gapMinutes: int)
      returns (problem: Option<RuleError>)
    ensures problem == Some(DayFull) <==> |existing| >= cap
    ensures problem.None? <==>
            |existing| < cap && forall i :: i in existing ==> SpacingProblem(start, end, i, gapMinutes * MINUTE).None?
    ensures problem.Some? && problem.value != DayFull ==>
            exists k :: 0 <= k < |existing| && problem == SpacingProblem(start, end, existing[k], gapMinutes * MINUTE)
              && forall j :: 0 <= j < k ==> SpacingProblem(start, end, existing[j], gapMinutes * MINUTE).None?
  {
    if |existing| >= cap {
      return Some(DayFull);
    }
    var minimumGap := gapMinutes * MINUTE;
    for k := 0 to |existing|
      invariant forall j :: 0 <= j < k ==> SpacingProblem(start, end, existing[j], minimumGap).None?
    {
      var i := existing[k];
      if start < i.endAt && i.startAt < end {
        assert SpacingProblem(start, end, existing[k], minimumGap) == Some(Overlaps);
        return Some(Overlaps);
      }
      if end <= i.startAt && i.startAt - end < minimumGap {
        assert SpacingProblem(start, end, existing[k], minimumGap) == Some(GapTooShort);
        return Some(GapTooShort);
      }
      if i.endAt <= start && start - i.endAt < minimumGap {
        assert SpacingProblem(start, end, existing[k], minimumGap) == Some(GapTooShort);
        return Some(GapTooShort);
      }
    }
    return None;
  }

  // ---------------------------------------------------------------------------
  // Concurrent transactions over the windows

  datatype Window = Window(staff: int, startAt: int, endAt: int, status: WindowStatus)

  /** A transaction that holds the advisory lock of (staff, date), has validated its interval
      and has not committed yet. A reopening one also holds the row lock of its window. */
  datatype Checked = Checked(staff: int, date: int, startAt: int, endAt: int, reopens: Option<int>)

  datatype State = State(windows: map<int, Window>, held: map<int, Checked>)

  datatype Event =
    | Create(worker: int, staff: int, now: int, date: int, time: int, durationMinutes: int)
    | Reopen(worker: int, id: int, now: int)
    | Commit(worker: int, newId: int)
    | Rollback(worker: int)
    | CreateClosed(newId: int, staff: int, now: int, date: int, time: int, durationMinutes: int)
    | Move(id: int, status: WindowStatus)
    | Reinstate(id: int, status: WindowStatus)
    | Delete(id: int)

  /** The rows `list_active_between` returns for the bounds of one date. */
  function ActiveOn(windows: map<int, Window>, z: Zone, staff: int, date: int): set<int> {
    var (lo, hi) := UtcDayBounds(z, date);
    set id | id in windows && windows[id].staff == staff && ActiveWindow(windows[id].status)
             && lo <= windows[id].startAt < hi
  }

  ghost predicate Locked(s: State, id: int) {
    exists w :: w in s.held && s.held[w].reopens == Some(id)
  }

  ghost predicate LockFree(s: State, staff: int, date: int) {
    forall w :: w in s.held ==> s.held[w].staff != staff || s.held[w].date != date
  }

  /** The lock is free and both validations pass for the rows read under it. */
  ghost predicate Passes(rules: Rules, s: State, c: Checked, now: int) {
    && LockFree(s, c.staff, c.date)
    && ValidateCalendar(c.date, c.startAt, c.endAt, now, rules).None?
    && var rows := ActiveOn(s.windows, rules.zone, c.staff, c.date);
       && |rows| < rules.maxWindowsPerDay
       && forall id :: id in rows ==>
            SpacingProblem(c.startAt, c.endAt, Interval(s.windows[id].startAt, s.windows[id].endAt), Gap(rules)).None?
  }

  /** One step. A window that is created closed is not checked against the others and takes no
      lock of the date. `Move` is every change of status that looks at the old one first;
      `Reinstate` makes a window active without looking, as the reconciliation of a paid hold and
      the reassignment of a master's bookings do. */
  ghost predicate Next(rules: Rules, s: State, e: Event, s': State) {
    match e
    case Create(worker, staff, now, date, time, durationMinutes) =>
      var (start, end) := LocalWindowToUtc(rules.zone, date, time, durationMinutes);
      var c := Checked(staff, date, start, end, None);
      && worker !in s.held && 0 <= time < DAY
      && Passes(rules, s, c, now)
      && s' == s.(held := s.held[worker := c])
    case Reopen(worker, id, now) =>
      && worker !in s.held && id in s.windows && s.windows[id].status == Closed && !Locked(s, id)
      && var w := s.windows[id];
         var c := Checked(w.staff, LocalDate(rules.zone, w.startAt), w.startAt, w.endAt, Some(id));
         && Passes(rules, s, c, now)
         && s' == s.(held := s.held[worker := c])
    case Commit(worker, newId) =>
      && worker in s.held
      && var c := s.held[worker];
         && (c.reopens.None? ==> newId !in s.windows)
         && s' == State(s.windows[(if c.reopens.Some? then c.reopens.value else newId) :=
                                  Window(c.staff, c.startAt, c.endAt, Open)], s.held - {worker})
    case Rollback(worker) =>
      s' == s.(held := s.held - {worker})
    case CreateClosed(newId, staff, now, date, time, durationMinutes) =>
      var (start, end) := LocalWindowToUtc(rules.zone, date, time, durationMinutes);
      && newId !in s.windows && 0 <= time < DAY
      && ValidateCalendar(date, start, end, now, rules).None?
      && s' == s.(windows := s.windows[newId := Window(staff, start, end, Closed)])
    case Reinstate(id, status) =>
      && id in s.windows && !Locked(s, id) && ActiveWindow(status)
      && s' == s.(windows := s.windows[id := s.windows[id].(status := status)])
    case Move(id, status) =>
      && id in s.windows && !Locked(s, id)
      && (ActiveWindow(status) ==> ActiveWindow(s.windows[id].status))
      && s' == s.(windows := s.windows[id := s.windows[id].(status := status)])
    case Delete(id) =>
      && id in s.windows && !Locked(s, id)
      && s' == s.(windows := s.windows - {id})
  }

  ghost predicate InOneDay(z: Zone, start: int, end: int) {
    start < end && LocalDate(z, start) == LocalDate(z, end)
  }

  ghost predicate SameDay(z: Zone, v: Window, w: Window) {
    && v.staff == w.staff && ActiveWindow(v.status) && ActiveWindow(w.status)
    && LocalDate(z, v.startAt) == LocalDate(z, w.startAt)
  }

  /** Two active windows of one master on one local date keep the minimum gap. */
  ghost predicate Spaced(rules: Rules, windows: map<int, Window>) {
    forall a, b :: a in windows && b in windows && a != b && SameDay(rules.zone, windows[a], windows[b]) ==>
      Apart(windows[a].startAt, windows[a].endAt, windows[b].startAt, windows[b].endAt, Gap(rules))
  }

  ghost predicate WithinCap(rules: Rules, windows: map<int, Window>) {
    forall staff, date :: |ActiveOn(windows, rules.zone, staff, date)| <= rules.maxWindowsPerDay
  }

  ghost predicate Placed(rules: Rules, windows: map<int, Window>) {
    forall id :: id in windows ==> InOneDay(rules.zone, windows[id].startAt, windows[id].endAt)
  }

  /** What a transaction has validated stays true while it holds its locks. */
  ghost predicate StillValid(rules: Rules, windows: map<int, Window>, c: Checked) {
    && InOneDay(rules.zone, c.startAt, c.endAt) && LocalDate(rules.zone, c.startAt) == c.date
    && |ActiveOn(windows, rules.zone, c.staff, c.date)| < rules.maxWindowsPerDay
    && (forall id :: id in ActiveOn(windows, rules.zone, c.staff, c.date) ==>
          Apart(c.startAt, c.endAt, windows[id].startAt, windows[id].endAt, Gap(rules)))
    && (c.reopens.Some? ==>
          && c.reopens.value in windows
          && windows[c.reopens.value] == Window(c.staff, c.startAt, c.endAt, Closed))
  }

  ghost predicate Exclusive(s: State) {
    forall v, w :: v in s.held && w in s.held && v != w ==>
      && (s.held[v].staff != s.held[w].staff || s.held[v].date != s.held[w].date)
      && (s.held[v].reopens.Some? ==> s.held[v].reopens != s.held[w].reopens)
  }

  ghost predicate Inv(rules: Rules, s: State) {
    && Placed(rules, s.windows) && Spaced(rules, s.windows) && WithinCap(rules, s.windows)
    && Exclusive(s)
    && forall w :: w in s.held ==> StillValid(rules, s.windows, s.held[w])
  }

  ghost predicate GoodRules(rules: Rules) {
    Regular(rules.zone) && ExactBounds(rules.zone) && rules.minimumGapMinutes >= 0 && rules.maxWindowsPerDay >= 0
  }

  /** A row is returned for a date exactly if it is active and starts on that local date. */
  lemma ActiveOnIsByDate(windows: map<int, Window>, z: Zone, staff: int, date: int)
    requires ExactBounds(z)
    ensures forall id :: id in ActiveOn(windows, z, staff, date) <==>
              id in windows && windows[id].staff == staff && ActiveWindow(windows[id].status)
              && LocalDate(z, windows[id].startAt) == date
  {
    forall id | id in windows
      ensures UtcDayBounds(z, date).0 <= windows[id].startAt < UtcDayBounds(z, date).1
              <==> date == LocalDate(z, windows[id].startAt)
    {
      DayBoundsTile(z, windows[id].startAt, date);
    }
  }

  /** Validation under the lock establishes what the commit relies on. */
  lemma PassesIsValid(rules: Rules, s: State, c: Checked, now: int)
    requires GoodRules(rules) && Inv(rules, s) && Passes(rules, s, c, now)
    requires LocalDate(rules.zone, c.startAt) == c.date
    requires c.reopens.Some? ==>
               c.reopens.value in s.windows && s.windows[c.reopens.value] == Window(c.staff, c.startAt, c.endAt, Closed)
    ensures StillValid(rules, s.windows, c)
  {
    forall id | id in ActiveOn(s.windows, rules.zone, c.staff, c.date)
      ensures Apart(c.startAt, c.endAt, s.windows[id].startAt, s.windows[id].endAt, Gap(rules))
    {
      assert InOneDay(rules.zone, s.windows[id].startAt, s.windows[id].endAt);
      SpacingIsApart(c.startAt, c.endAt, Interval(s.windows[id].startAt, s.windows[id].endAt), Gap(rules));
    }
  }

  /** The same row, possibly closed or expired meanwhile. */
  ghost predicate OnlyLessActive(w: Window, w': Window) {
    w' == w.(status := w'.status) && (ActiveWindow(w'.status) ==> ActiveWindow(w.status))
  }

  /** Fewer active rows keep everything that has been validated. */
  lemma ShrinkKeepsInv(rules: Rules, s: State, s': State)
    requires GoodRules(rules) && Inv(rules, s)
    requires s'.held == s.held && s'.windows.Keys <= s.windows.Keys
    requires forall id :: id in s'.windows ==> OnlyLessActive(s.windows[id], s'.windows[id])
    requires forall id :: id in s.windows && Locked(s, id) ==> id in s'.windows && s'.windows[id] == s.windows[id]
    ensures Inv(rules, s')
  {
    forall staff, date
      ensures ActiveOn(s'.windows, rules.zone, staff, date) <= ActiveOn(s.windows, rules.zone, staff, date)
      ensures |ActiveOn(s'.windows, rules.zone, staff, date)| <= |ActiveOn(s.windows, rules.zone, staff, date)|
    {
      forall id | id in ActiveOn(s'.windows, rules.zone, staff, date)
        ensures id in ActiveOn(s.windows, rules.zone, staff, date)
      {
        assert OnlyLessActive(s.windows[id], s'.windows[id]);
      }
      SubsetSize(ActiveOn(s'.windows, rules.zone, staff, date), ActiveOn(s.windows, rules.zone, staff, date));
    }
    forall w | w in s'.held ensures StillValid(rules, s'.windows, s'.held[w]) {
      assert StillValid(rules, s.windows, s.held[w]);
      if s.held[w].reopens.Some? { assert Locked(s, s.held[w].reopens.value); }
    }
  }

  /** The interval fits into the day, beside what is active and beside what transactions in
      progress have validated. */
  ghost predicate Fits(rules: Rules, s: State, w: Window) {
    var date := LocalDate(rules.zone, w.startAt);
    var rows := ActiveOn(s.windows, rules.zone, w.staff, date);
    && |rows| < rules.maxWindowsPerDay
    && (forall id :: id in rows ==>
          Apart(w.startAt, w.endAt, s.windows[id].startAt, s.windows[id].endAt, Gap(rules)))
    && (forall h :: h in s.held && s.held[h].staff == w.staff && s.held[h].date == date ==>
          && |rows| + 1 < rules.maxWindowsPerDay
          && Apart(s.held[h].startAt, s.held[h].endAt, w.startAt, w.endAt, Gap(rules)))
  }

  /** Making one window active adds it to the rows of its own date only. */
  lemma ActivatedRows(z: Zone, windows: map<int, Window>, id: int, w: Window, staff: int, date: int)
    requires ExactBounds(z) && ActiveWindow(w.status) && (id in windows ==> !ActiveWindow(windows[id].status))
    ensures id !in ActiveOn(windows, z, staff, date)
    ensures ActiveOn(windows[id := w], z, staff, date)
         == ActiveOn(windows, z, staff, date) + if staff == w.staff && date == LocalDate(z, w.startAt) then {id} else {}
  {
    ActiveOnIsByDate(windows, z, staff, date);
    ActiveOnIsByDate(windows[id := w], z, staff, date);
  }

  lemma ActivatedIsSpaced(rules: Rules, s: State, id: int, w: Window)
    requires GoodRules(rules) && Spaced(rules, s.windows) && Fits(rules, s, w)
    ensures Spaced(rules, s.windows[id := w])
  {
    var windows' := s.windows[id := w];
    ActiveOnIsByDate(s.windows, rules.zone, w.staff, LocalDate(rules.zone, w.startAt));
    forall a, b | a in windows' && b in windows' && a != b && SameDay(rules.zone, windows'[a], windows'[b])
      ensures Apart(windows'[a].startAt, windows'[a].endAt, windows'[b].startAt, windows'[b].endAt, Gap(rules))
    {
      if a == id {
        assert b in ActiveOn(s.windows, rules.zone, w.staff, LocalDate(rules.zone, w.startAt));
      } else if b == id {
        assert a in ActiveOn(s.windows, rules.zone, w.staff, LocalDate(rules.zone, w.startAt));
      }
    }
  }

  lemma ActivatedStaysValid(rules: Rules, s: State, id: int, w: Window, h: int)
    requires GoodRules(rules) && h in s.held && StillValid(rules, s.windows, s.held[h]) && Fits(rules, s, w)
    requires ActiveWindow(w.status) && (id in s.windows ==> !ActiveWindow(s.windows[id].status))
    requires s.held[h].reopens != Some(id)
    ensures StillValid(rules, s.windows[id := w], s.held[h])
  {
    ActivatedRows(rules.zone, s.windows, id, w, s.held[h].staff, s.held[h].date);
  }

  /** A window that fits may become active. */
  lemma ActivatedKeepsInv(rules: Rules, s: State, id: int, w: Window)
    requires GoodRules(rules) && Inv(rules, s) && Fits(rules, s, w)
    requires ActiveWindow(w.status) && InOneDay(rules.zone, w.startAt, w.endAt)
    requires id in s.windows ==> !ActiveWindow(s.windows[id].status)
    requires !Locked(s, id)
    ensures Inv(rules, s.(windows := s.windows[id := w]))
  {
    var windows' := s.windows[id := w];
    ActivatedIsSpaced(rules, s, id, w);
    forall staff, date ensures |ActiveOn(windows', rules.zone, staff, date)| <= rules.maxWindowsPerDay {
      ActivatedRows(rules.zone, s.windows, id, w, staff, date);
      assert |ActiveOn(s.windows, rules.zone, staff, date)| <= rules.maxWindowsPerDay;
    }
    forall h | h in s.held ensures StillValid(rules, s.windows[id := w], s.held[h]) {
      assert StillValid(rules, s.windows, s.held[h]);
      ActivatedStaysValid(rules, s, id, w, h);
    }
  }

  /** ... and only such a window may. */
  lemma ActivatedMustFit(rules: Rules, s: State, id: int, w: Window)
    requires GoodRules(rules) && Inv(rules, s.(windows := s.windows[id := w]))
    requires ActiveWindow(w.status) && (id in s.windows ==> !ActiveWindow(s.windows[id].status))
    ensures Fits(rules, s, w)
  {
    var windows' := s.windows[id := w];
    var date := LocalDate(rules.zone, w.startAt);
    ActivatedRows(rules.zone, s.windows, id, w, w.staff, date);
    ActiveOnIsByDate(s.windows, rules.zone, w.staff, date);
    assert |ActiveOn(windows', rules.zone, w.staff, date)| <= rules.maxWindowsPerDay;
    forall x | x in ActiveOn(s.windows, rules.zone, w.staff, date)
      ensures Apart(w.startAt, w.endAt, s.windows[x].startAt, s.windows[x].endAt, Gap(rules))
    {
      assert SameDay(rules.zone, windows'[id], windows'[x]);
    }
    forall h | h in s.held && s.held[h].staff == w.staff && s.held[h].date == date
      ensures Apart(s.held[h].startAt, s.held[h].endAt, w.startAt, w.endAt, Gap(rules))
      ensures |ActiveOn(s.windows, rules.zone, w.staff, date)| + 1 < rules.maxWindowsPerDay
    {
      assert StillValid(rules, windows', s.held[h]);
      assert id in ActiveOn(windows', rules.zone, w.staff, date);
    }
  }

  lemma FewerHeldKeepsInv(rules: Rules, s: State, worker: int)
    requires Inv(rules, s)
    ensures Inv(rules, s.(held := s.held - {worker}))
  {
  }

  lemma CommitKeepsInv(rules: Rules, s: State, worker: int, id: int)
    requires GoodRules(rules) && Inv(rules, s) && worker in s.held
    requires var c := s.held[worker]; if c.reopens.Some? then id == c.reopens.value else id !in s.windows
    ensures var c := s.held[worker];
            Inv(rules, State(s.windows[id := Window(c.staff, c.startAt, c.endAt, Open)], s.held - {worker}))
  {
    var c, rest := s.held[worker], s.(held := s.held - {worker});
    assert StillValid(rules, s.windows, c);
    forall h | h in rest.held ensures rest.held[h].reopens != Some(id) {
      assert StillValid(rules, s.windows, s.held[h]);
    }
    FewerHeldKeepsInv(rules, s, worker);
    ActivatedKeepsInv(rules, rest, id, Window(c.staff, c.startAt, c.endAt, Open));
  }

  lemma ClosedKeepsInv(rules: Rules, s: State, id: int, w: Window)
    requires GoodRules(rules) && Inv(rules, s) && id !in s.windows
    requires !ActiveWindow(w.status) && InOneDay(rules.zone, w.startAt, w.endAt)
    ensures Inv(rules, s.(windows := s.windows[id := w]))
  {
    var windows' := s.windows[id := w];
    forall staff, date
      ensures ActiveOn(windows', rules.zone, staff, date) == ActiveOn(s.windows, rules.zone, staff, date)
    {
      ClosedIsNotListed(rules.zone, s.windows, id, w, staff, date);
    }
    hide ActiveOn;
    forall h | h in s.held ensures StillValid(rules, windows', s.held[h]) {
      assert StillValid(rules, s.windows, s.held[h]);
      ActiveIsARow(s.windows, rules.zone, s.held[h].staff, s.held[h].date);
    }
  }

  lemma ClosedIsNotListed(z: Zone, windows: map<int, Window>, id: int, w: Window, staff: int, date: int)
    requires id !in windows && !ActiveWindow(w.status)
    ensures ActiveOn(windows[id := w], z, staff, date) == ActiveOn(windows, z, staff, date)
  {
  }

  lemma ActiveIsARow(windows: map<int, Window>, z: Zone, staff: int, date: int)
    ensures ActiveOn(windows, z, staff, date) <= windows.Keys
  {
  }

  /** A window that is reinstated is still active, or still fits. */
  ghost predicate Admits(rules: Rules, s: State, e: Event) {
    e.Reinstate? && e.id in s.windows ==> ActiveWindow(s.windows[e.id].status) || Fits(rules, s, s.windows[e.id])
  }

  /** Every step keeps the cap, the gap and what transactions in progress have checked, exactly
      unless it reinstates a window that has become inactive and no longer fits. */
  lemma StepKeepsInvIff(rules: Rules, s: State, e: Event, s': State)
    requires GoodRules(rules) && Inv(rules, s) && Next(rules, s, e, s')
    ensures Inv(rules, s') <==> Admits(rules, s, e)
  {
    hide Inv, Fits;
    match e
    case Create(worker, staff, now, date, time, durationMinutes) =>
      CreateKeepsInv(rules, s, e, s');
    case Reopen(worker, id, now) =>
      ReopenKeepsInv(rules, s, e, s');
    case Commit(worker, newId) =>
      var c := s.held[worker];
      CommitKeepsInv(rules, s, worker, if c.reopens.Some? then c.reopens.value else newId);
    case Rollback(worker) =>
      FewerHeldKeepsInv(rules, s, worker);
    case CreateClosed(newId, staff, now, date, time, durationMinutes) =>
      var (start, end) := LocalWindowToUtc(rules.zone, date, time, durationMinutes);
      WindowStaysInItsDay(rules.zone, date, time, durationMinutes);
      ClosedKeepsInv(rules, s, newId, Window(staff, start, end, Closed));
    case Move(id, status) =>
      ShrinkKeepsInv(rules, s, s');
    case Reinstate(id, status) =>
      ReinstateKeepsInvIff(rules, s, e, s');
    case Delete(id) =>
      ShrinkKeepsInv(rules, s, s');
  }

  lemma CreateKeepsInv(rules: Rules, s: State, e: Event, s': State)
    requires GoodRules(rules) && Inv(rules, s) && Next(rules, s, e, s') && e.Create?
    ensures Inv(rules, s')
  {
    var (start, end) := LocalWindowToUtc(rules.zone, e.date, e.time, e.durationMinutes);
    WindowStaysInItsDay(rules.zone, e.date, e.time, e.durationMinutes);
    PassesIsValid(rules, s, Checked(e.staff, e.date, start, end, None), e.now);
  }

  lemma ReopenKeepsInv(rules: Rules, s: State, e: Event, s': State)
    requires GoodRules(rules) && Inv(rules, s) && Next(rules, s, e, s') && e.Reopen?
    ensures Inv(rules, s')
  {
    var w := s.windows[e.id];
    PassesIsValid(rules, s, Checked(w.staff, LocalDate(rules.zone, w.startAt), w.startAt, w.endAt, Some(e.id)), e.now);
  }

  /** The state of a window can be set without looking exactly when it is active or fits. */
  lemma ReinstateKeepsInvIff(rules: Rules, s: State, e: Event, s': State)
    requires GoodRules(rules) && Inv(rules, s) && Next(rules, s, e, s') && e.Reinstate?
    ensures Inv(rules, s') <==> ActiveWindow(s.windows[e.id].status) || Fits(rules, s, s.windows[e.id])
  {
    var w := s.windows[e.id].(status := e.status);
    assert InOneDay(rules.zone, s.windows[e.id].startAt, s.windows[e.id].endAt);
    if ActiveWindow(s.windows[e.id].status) {
      ShrinkKeepsInv(rules, s, s');
    } else {
      FitsWhatever(rules, s, s.windows[e.id], e.status);
      if Fits(rules, s, w) { ActivatedKeepsInv(rules, s, e.id, w); }
      if Inv(rules, s') { ActivatedMustFit(rules, s, e.id, w); }
    }
  }

  lemma FitsWhatever(rules: Rules, s: State, w: Window, status: WindowStatus)
    ensures Fits(rules, s, w.(status := status)) == Fits(rules, s, w)
  {
  }

  /** A run from an empty calendar under fixed settings. */
  ghost predicate Run(rules: Rules, states: seq<State>, events: seq<Event>) {
    && |states| == |events| + 1
    && states[0] == State(map[], map[])
    && forall i :: 0 <= i < |events| ==> Next(rules, states[i], events[i], states[i + 1])
  }

  /** A run keeps the invariant throughout exactly if every window it reinstates is still active
      or still fits. */
  lemma {:induction false} RunKeepsInvIff(rules: Rules, states: seq<State>, events: seq<Event>, i: nat)
    requires GoodRules(rules) && Run(rules, states, events) && i < |states|
    ensures (forall k :: 0 <= k <= i ==> Inv(rules, states[k])) <==>
              forall k :: 0 <= k < i ==> Admits(rules, states[k], events[k])
  {
    hide Inv, Admits, Next;
    if i == 0 {
      EmptyIsGood(rules);
    } else {
      RunKeepsInvIff(rules, states, events, i - 1);
      if Inv(rules, states[i - 1]) {
        assert Next(rules, states[i - 1], events[i - 1], states[i - 1 + 1]);
        StepKeepsInvIff(rules, states[i - 1], events[i - 1], states[i - 1 + 1]);
      }
    }
  }

  lemma EmptyIsGood(rules: Rules)
    requires GoodRules(rules)
    ensures Inv(rules, State(map[], map[]))
  {
    forall staff, date ensures ActiveOn(map[], rules.zone, staff, date) == {} {}
  }

  // ---------------------------------------------------------------------------
  // Cap and gap alone

  /** The rows keep the cap and the gap, whatever transactions in progress have checked. */
  ghost predicate CapAndGap(rules: Rules, windows: map<int, Window>) {
    Spaced(rules, windows) && WithinCap(rules, windows)
  }

  /** The window fits beside the active rows alone. */
  ghost predicate FitsRows(rules: Rules, windows: map<int, Window>, w: Window) { Fits(rules, State(windows, map[]), w) }

  /** A window that is reinstated is still active or fits beside the active rows, and one that is
      committed still fits beside them. */
  ghost predicate StepFits(rules: Rules, s: State, e: Event) {
    && (e.Reinstate? && e.id in s.windows ==>
          ActiveWindow(s.windows[e.id].status) || FitsRows(rules, s.windows, s.windows[e.id]))
    && (e.Commit? && e.worker in s.held ==> FitsRows(rules, s.windows, Opened(s.held[e.worker])))
  }

  /** The row that a transaction commits. */
  function Opened(c: Checked): Window { Window(c.staff, c.startAt, c.endAt, Open) }

  /** What every step keeps, even one that breaks cap or gap. */
  ghost predicate WellFormed(rules: Rules, s: State) {
    && Placed(rules, s.windows) && Exclusive(s)
    && forall w :: w in s.held ==>
         var c := s.held[w];
         && InOneDay(rules.zone, c.startAt, c.endAt) && LocalDate(rules.zone, c.startAt) == c.date
         && (c.reopens.Some? ==>
               c.reopens.value in s.windows
               && s.windows[c.reopens.value] == Window(c.staff, c.startAt, c.endAt, Closed))
  }

  lemma StepStaysWellFormed(rules: Rules, s: State, e: Event, s': State)
    requires GoodRules(rules) && WellFormed(rules, s) && Next(rules, s, e, s')
    ensures WellFormed(rules, s')
  {
    hide ActiveOn, SpacingProblem, LocalWindowToUtc, ExactBounds, Regular;
    match e
    case Create(worker, staff, now, date, time, durationMinutes) =>
      WindowStaysInItsDay(rules.zone, date, time, durationMinutes);
    case CreateClosed(newId, staff, now, date, time, durationMinutes) =>
      WindowStaysInItsDay(rules.zone, date, time, durationMinutes);
    case Reopen(worker, id, now) =>
      forall v | v in s.held ensures s.held[v].reopens != Some(id) {}
    case Commit(worker, newId) =>
      forall v | v in s'.held && s'.held[v].reopens.Some?
        ensures s'.windows[s'.held[v].reopens.value] == s.windows[s'.held[v].reopens.value]
      {
      }
    case Rollback(worker) =>
    case _ =>
      forall v | v in s.held && s.held[v].reopens.Some? ensures Locked(s, s.held[v].reopens.value) {}
  }

  /** The invariant without transactions in progress is about the rows alone. */
  lemma RowsAlone(rules: Rules, windows: map<int, Window>)
    requires Placed(rules, windows)
    ensures Inv(rules, State(windows, map[])) <==> CapAndGap(rules, windows)
  {
  }

  /** One window becomes active: cap and gap survive exactly if it fits beside the active rows. */
  lemma ActivatedKeepsCapIff(rules: Rules, windows: map<int, Window>, id: int, w: Window)
    requires GoodRules(rules) && Placed(rules, windows) && CapAndGap(rules, windows)
    requires ActiveWindow(w.status) && InOneDay(rules.zone, w.startAt, w.endAt)
    requires id in windows ==> !ActiveWindow(windows[id].status)
    ensures CapAndGap(rules, windows[id := w]) <==> FitsRows(rules, windows, w)
  {
    var s := State(windows, map[]);
    RowsAlone(rules, windows);
    RowsAlone(rules, windows[id := w]);
    hide Inv, Fits, CapAndGap;
    if Fits(rules, s, w) { ActivatedKeepsInv(rules, s, id, w); }
    if Inv(rules, s.(windows := windows[id := w])) { ActivatedMustFit(rules, s, id, w); }
  }

  lemma FewerKeepCap(rules: Rules, windows: map<int, Window>, windows': map<int, Window>)
    requires GoodRules(rules) && Placed(rules, windows) && CapAndGap(rules, windows)
    requires windows'.Keys <= windows.Keys
    requires forall id :: id in windows' ==> OnlyLessActive(windows[id], windows'[id])
    ensures CapAndGap(rules, windows')
  {
    ShrinkKeepsInv(rules, State(windows, map[]), State(windows', map[]));
  }

  /** Every step keeps cap and gap exactly unless it reinstates or commits a window that does not
      fit beside the active rows. */
  lemma StepKeepsCapIff(rules: Rules, s: State, e: Event, s': State)
    requires GoodRules(rules) && WellFormed(rules, s) && CapAndGap(rules, s.windows) && Next(rules, s, e, s')
    ensures CapAndGap(rules, s'.windows) <==> StepFits(rules, s, e)
  {
    hide CapAndGap, FitsRows, Passes, Regular, ExactBounds, LocalWindowToUtc;
    match e
    case Commit(worker, newId) =>
      var c := s.held[worker];
      ActivatedKeepsCapIff(rules, s.windows, if c.reopens.Some? then c.reopens.value else newId, Opened(c));
    case CreateClosed(newId, staff, now, date, time, durationMinutes) =>
      var (start, end) := LocalWindowToUtc(rules.zone, date, time, durationMinutes);
      WindowStaysInItsDay(rules.zone, date, time, durationMinutes);
      ClosedKeepsCap(rules, s.windows, newId, Window(staff, start, end, Closed));
    case Move(id, status) =>
      FewerKeepCap(rules, s.windows, s'.windows);
    case Reinstate(id, status) =>
      ReinstateKeepsCapIff(rules, s, e, s');
    case Delete(id) =>
      FewerKeepCap(rules, s.windows, s'.windows);
    case _ =>
  }

  lemma ClosedKeepsCap(rules: Rules, windows: map<int, Window>, id: int, w: Window)
    requires GoodRules(rules) && Placed(rules, windows) && CapAndGap(rules, windows) && id !in windows
    requires !ActiveWindow(w.status) && InOneDay(rules.zone, w.startAt, w.endAt)
    ensures CapAndGap(rules, windows[id := w])
  {
    RowsAlone(rules, windows);
    RowsAlone(rules, windows[id := w]);
    ClosedKeepsInv(rules, State(windows, map[]), id, w);
  }

  /** Making a window active without looking at its status keeps cap and gap exactly when it was
      active or fits beside the active rows. */
  lemma ReinstateKeepsCapIff(rules: Rules, s: State, e: Event, s': State)
    requires GoodRules(rules) && Placed(rules, s.windows) && CapAndGap(rules, s.windows)
    requires Next(rules, s, e, s') && e.Reinstate?
    ensures CapAndGap(rules, s'.windows) <==>
              ActiveWindow(s.windows[e.id].status) || FitsRows(rules, s.windows, s.windows[e.id])
  {
    var w := s.windows[e.id].(status := e.status);
    hide CapAndGap;
    if ActiveWindow(s.windows[e.id].status) {
      FewerKeepCap(rules, s.windows, s'.windows);
    } else {
      assert InOneDay(rules.zone, s.windows[e.id].startAt, s.windows[e.id].endAt);
      FitsWhatever(rules, State(s.windows, map[]), s.windows[e.id], e.status);
      ActivatedKeepsCapIff(rules, s.windows, e.id, w);
    }
  }

  lemma {:induction false} RunStaysWellFormed(rules: Rules, states: seq<State>, events: seq<Event>, i: nat)
    requires GoodRules(rules) && Run(rules, states, events) && i < |states|
    ensures WellFormed(rules, states[i])
  {
    hide GoodRules;
    if i > 0 {
      hide WellFormed, Next;
      RunStaysWellFormed(rules, states, events, i - 1);
      assert Next(rules, states[i - 1], events[i - 1], states[i - 1 + 1]);
      StepStaysWellFormed(rules, states[i - 1], events[i - 1], states[i]);
    }
  }

  /** Cap and gap hold throughout a run exactly if every window that it reinstates was active or
      fitted beside the active rows, and every window that it commits still fitted beside them. */
  lemma {:induction false} RunKeepsCapIff(rules: Rules, states: seq<State>, events: seq<Event>, i: nat)
    requires GoodRules(rules) && Run(rules, states, events) && i < |states|
    ensures (forall k :: 0 <= k <= i ==> CapAndGap(rules, states[k].windows)) <==>
              forall k :: 0 <= k < i ==> StepFits(rules, states[k], events[k])
  {
    hide GoodRules, CapAndGap, StepFits, Next, WellFormed, Inv;
    if i == 0 {
      EmptyKeepsCap(rules);
    } else {
      RunKeepsCapIff(rules, states, events, i - 1);
      if CapAndGap(rules, states[i - 1].windows) {
        RunStaysWellFormed(rules, states, events, i - 1);
        assert Next(rules, states[i - 1], events[i - 1], states[i - 1 + 1]);
        StepKeepsCapIff(rules, states[i - 1], events[i - 1], states[i]);
      }
    }
  }

  lemma EmptyKeepsCap(rules: Rules)
    requires GoodRules(rules)
    ensures CapAndGap(rules, map[])
  {
    EmptyIsGood(rules);
  }

  /** As long as every reinstated window is active or fits beside rows and pending checks, no
      commit is ever out of place. */
  lemma AdmittedRunFits(rules: Rules, states: seq<State>, events: seq<Event>, i: nat)
    requires GoodRules(rules) && Run(rules, states, events) && i < |states|
    requires forall k :: 0 <= k < i ==> Admits(rules, states[k], events[k])
    ensures forall k :: 0 <= k < i ==> StepFits(rules, states[k], events[k])
  {
    hide GoodRules, Admits, StepFits, Next;
    RunKeepsInvIff(rules, states, events, i);
    forall k | 0 <= k <= i ensures CapAndGap(rules, states[k].windows) {
      assert Inv(rules, states[k]);
    }
    hide CapAndGap, Inv;
    RunKeepsCapIff(rules, states, events, i);
  }

  /** Fitting beside the pending checks too means that no commit then enabled breaks cap or gap. */
  lemma AdmitsIff(rules: Rules, s: State, e: Event, s': State)
    requires GoodRules(rules) && Inv(rules, s) && Next(rules, s, e, s') && e.Reinstate?
    ensures Admits(rules, s, e) <==>
            && CapAndGap(rules, s'.windows)
            && forall worker, newId, s2 :: Next(rules, s', Commit(worker, newId), s2) ==> CapAndGap(rules, s2.windows)
  {
    ReinstateKeepsInvIff(rules, s, e, s');
    if Admits(rules, s, e) {
      forall worker, newId, s2 | Next(rules, s', Commit(worker, newId), s2) ensures CapAndGap(rules, s2.windows) {
        StepKeepsInvIff(rules, s', Commit(worker, newId), s2);
      }
    } else if CapAndGap(rules, s'.windows) {
      ReinstateKeepsCapIff(rules, s, e, s');
      var h := PendingClash(rules, s, s.windows[e.id]);
      var newId := AboveAll(s'.windows.Keys);
      var s2 := CommitOf(s', h, newId);
      assert Next(rules, s', Commit(h, newId), s2);
      CommitBeside(rules, s, e, s', h, newId);
    }
  }

  /** A transaction in progress that leaves no room for the window. */
  lemma PendingClash(rules: Rules, s: State, w: Window) returns (h: int)
    requires FitsRows(rules, s.windows, w) && !Fits(rules, s, w)
    ensures h in s.held && s.held[h].staff == w.staff && s.held[h].date == LocalDate(rules.zone, w.startAt)
    ensures |ActiveOn(s.windows, rules.zone, w.staff, s.held[h].date)| + 1 >= rules.maxWindowsPerDay
         || !Apart(s.held[h].startAt, s.held[h].endAt, w.startAt, w.endAt, Gap(rules))
  {
    hide ActiveOn, Apart;
    var date := LocalDate(rules.zone, w.startAt);
    h :| h in s.held && s.held[h].staff == w.staff && s.held[h].date == date
         && (|ActiveOn(s.windows, rules.zone, w.staff, date)| + 1 >= rules.maxWindowsPerDay
             || !Apart(s.held[h].startAt, s.held[h].endAt, w.startAt, w.endAt, Gap(rules)));
  }

  /** If it commits all the same, cap or gap is broken. */
  lemma CommitBeside(rules: Rules, s: State, e: Event, s': State, h: int, newId: int)
    requires GoodRules(rules) && Inv(rules, s) && Next(rules, s, e, s') && e.Reinstate?
    requires !ActiveWindow(s.windows[e.id].status) && h in s.held && newId !in s'.windows
    requires var w := s.windows[e.id];
             && s.held[h].staff == w.staff && s.held[h].date == LocalDate(rules.zone, w.startAt)
             && (|ActiveOn(s.windows, rules.zone, w.staff, s.held[h].date)| + 1 >= rules.maxWindowsPerDay
                 || !Apart(s.held[h].startAt, s.held[h].endAt, w.startAt, w.endAt, Gap(rules)))
    ensures !CapAndGap(rules, CommitOf(s', h, newId).windows)
  {
    var c, w, z := s.held[h], s.windows[e.id].(status := e.status), rules.zone;
    var id, after := if c.reopens.Some? then c.reopens.value else newId, CommitOf(s', h, newId).windows;
    assert StillValid(rules, s.windows, c);
    assert c.reopens.Some? ==> Locked(s, id);
    ActivatedRows(z, s.windows, e.id, w, c.staff, c.date);
    ActivatedRows(z, s'.windows, id, Opened(c), c.staff, c.date);
    assert |ActiveOn(after, z, c.staff, c.date)| == |ActiveOn(s.windows, z, c.staff, c.date)| + 2;
    if CapAndGap(rules, after) {
      assert |ActiveOn(after, z, c.staff, c.date)| <= rules.maxWindowsPerDay;
      assert SameDay(z, after[id], after[e.id]);
    }
  }

  /** The state after a transaction commits. */
  function CommitOf(s: State, worker: int, newId: int): State
    requires worker in s.held
  {
    var c := s.held[worker];
    State(s.windows[(if c.reopens.Some? then c.reopens.value else newId) := Opened(c)], s.held - {worker})
  }

  /** However the transactions interleave, a master's active windows of one local date stay
      within the cap and the gap apart, and active windows of one master never overlap, as long as
      no window is reinstated or committed that does not fit beside the active ones. */
  lemma EveryRunIsSpaced(rules: Rules, states: seq<State>, events: seq<Event>, i: nat, a: int, b: int, date: int)
    requires GoodRules(rules) && Run(rules, states, events) && i < |states|
    requires forall k :: 0 <= k < i ==> StepFits(rules, states[k], events[k])
    ensures var windows := states[i].windows;
            && (forall staff :: |TakenOn(rules.zone, windows, staff, date)| <= rules.maxWindowsPerDay)
            && (a in windows && b in windows && a != b && windows[a].staff == windows[b].staff
                && TakesTime(windows[a]) && TakesTime(windows[b]) ==>
                  && (windows[a].endAt <= windows[b].startAt || windows[b].endAt <= windows[a].startAt)
                  && (LocalDate(rules.zone, windows[a].startAt) == LocalDate(rules.zone, windows[b].startAt) ==>
                        || windows[a].endAt + rules.minimumGapMinutes * MINUTE <= windows[b].startAt
                        || windows[b].endAt + rules.minimumGapMinutes * MINUTE <= windows[a].startAt))
  {
    RunKeepsCapIff(rules, states, events, i);
    RunStaysWellFormed(rules, states, events, i);
    assert CapAndGap(rules, states[i].windows);
    var windows := states[i].windows;
    forall staff ensures TakenOn(rules.zone, windows, staff, date) == ActiveOn(windows, rules.zone, staff, date) {
      ActiveOnIsByDate(windows, rules.zone, staff, date);
      assert forall id :: id in TakenOn(rules.zone, windows, staff, date) <==>
        id in ActiveOn(windows, rules.zone, staff, date);
    }
    if a in windows && b in windows {
      ExactIsMonotone(rules.zone);
      var (s1, e1, s2, e2) := (windows[a].startAt, windows[a].endAt, windows[b].startAt, windows[b].endAt);
      assert InOneDay(rules.zone, s1, e1) && InOneDay(rules.zone, s2, e2);
      if s1 < e2 && s2 < e1 { OverlapSharesTheDate(rules.zone, s1, e1, s2, e2); }
    }
  }

  /** The window is open, reserved or booked. */
  predicate TakesTime(w: Window) { w.status == Open || w.status == Reserved || w.status == Booked }

  /** A master's windows that take time on a local date. */
  function TakenOn(z: Zone, windows: map<int, Window>, staff: int, date: int): set<int> {
    set id | id in windows && windows[id].staff == staff && TakesTime(windows[id])
             && LocalDate(z, windows[id].startAt) == date
  }

  // ---------------------------------------------------------------------------
  // A paid hold that is reconciled too late

  /** A held window is closed when its former service is deleted; another is created in its
      place; then the hold turns out to be paid and the first window is booked again. */
  lemma ReconciledWindowOverlaps(rules: Rules) returns (states: seq<State>, events: seq<Event>)
    requires rules == Rules(Zone(0, []), 30, 5, 0, true, true)
    ensures Run(rules, states, events) && |events| == 7 && events[6] == Reinstate(1, Booked)
    ensures var windows := states[7].windows;
            && 1 in windows && 2 in windows && windows[1].staff == windows[2].staff
            && ActiveWindow(windows[1].status) && ActiveWindow(windows[2].status)
            && windows[1].startAt == windows[2].startAt
  {
    var hour := Window(1, 0, 60 * MINUTE, Open);
    var checked := Checked(1, 0, 0, 60 * MINUTE, None);
    var closed := map[1 := hour.(status := Closed)];
    events := [Create(0, 1, -1, 0, 0, 60), Commit(0, 1), Move(1, Reserved), Move(1, Closed), Create(0, 1, -1, 0, 0, 60),
               Commit(0, 2), Reinstate(1, Booked)];
    states := [State(map[], map[]), State(map[], map[0 := checked]), State(map[1 := hour], map[]),
               State(map[1 := hour.(status := Reserved)], map[]), State(closed, map[]),
               State(closed, map[0 := checked]), State(closed[2 := hour], map[]),
               State(closed[2 := hour][1 := hour.(status := Booked)], map[])];
    CreatesTheHour(rules, map[]);
    CreatesTheHour(rules, closed);
    hide ValidateCalendar, LocalWindowToUtc, Passes;
    assert Next(rules, states[1], events[1], states[2]);
    assert Next(rules, states[2], events[2], states[3]);
    assert Next(rules, states[3], events[3], states[4]);
    assert Next(rules, states[5], events[5], states[6]);
    assert Next(rules, states[6], events[6], states[7]);
  }

  lemma CreatesTheHour(rules: Rules, windows: map<int, Window>)
    requires rules == Rules(Zone(0, []), 30, 5, 0, true, true)
    requires forall id :: id in windows ==> !ActiveWindow(windows[id].status)
    ensures Next(rules, State(windows, map[]), Create(0, 1, -1, 0, 0, 60),
                 State(windows, map[0 := Checked(1, 0, 0, 60 * MINUTE, None)]))
  {
    hide Next, ValidateCalendar, LocalWindowToUtc, ActiveOn;
    TheHourIsAllowed(rules);
    NoneIsListed(rules.zone, windows);
    CreatesAlone(rules, windows, Create(0, 1, -1, 0, 0, 60), 0, 60 * MINUTE);
  }

  /** On a date with no active window only the calendar rules can refuse one. */
  lemma CreatesAlone(rules: Rules, windows: map<int, Window>, e: Event, start: int, end: int)
    requires e.Create? && 0 <= e.time < DAY && rules.maxWindowsPerDay > 0
    requires LocalWindowToUtc(rules.zone, e.date, e.time, e.durationMinutes) == (start, end)
    requires ValidateCalendar(e.date, start, end, e.now, rules).None?
    requires ActiveOn(windows, rules.zone, e.staff, e.date) == {}
    ensures Next(rules, State(windows, map[]), e,
                 State(windows, map[e.worker := Checked(e.staff, e.date, start, end, None)]))
  {
    hide LocalWindowToUtc, ValidateCalendar, ActiveOn, SpacingProblem;
    var s, c := State(windows, map[]), Checked(e.staff, e.date, start, end, None);
    assert Passes(rules, s, c, e.now);
    assert map[][e.worker := c] == map[e.worker := c];
  }

  lemma NoneIsListed(z: Zone, windows: map<int, Window>)
    requires forall id :: id in windows ==> !ActiveWindow(windows[id].status)
    ensures ActiveOn(windows, z, 1, 0) == {}
  {
    assert forall id :: id !in ActiveOn(windows, z, 1, 0);
  }

  lemma TheHourIsAllowed(rules: Rules)
    requires rules == Rules(Zone(0, []), 30, 5, 0, true, true)
    ensures LocalWindowToUtc(rules.zone, 0, 0, 60) == (0, 60 * MINUTE)
    ensures ValidateCalendar(0, 0, 60 * MINUTE, -1, rules).None?
  {
    TheHourInUtc(rules.zone);
    DatesInUtc(rules.zone);
    hide LocalWindowToUtc, LocalDate;
  }

  lemma TheHourInUtc(z: Zone)
    requires z == Zone(0, [])
    ensures LocalWindowToUtc(z, 0, 0, 60) == (0, 60 * MINUTE)
  {
    ReadsAsUtc(z);
    hide WallToUtc;
  }

  lemma DatesInUtc(z: Zone)
    requires z == Zone(0, [])
    ensures LocalDate(z, -1) == -1 && LocalDate(z, 60 * MINUTE) == 0
  {
    ReadsAsUtc(z);
    hide Reading;
    assert Reading(z, -1) == -1 && Reading(z, 60 * MINUTE) == 60 * MINUTE;
    InTheDay();
  }

  lemma InTheDay()
    ensures -1 / DAY == -1 && 60 * MINUTE / DAY == 0
  {
  }

  lemma ReadsAsUtc(z: Zone)
    requires z.initial == 0 && z.transitions == []
    ensures forall u :: Reading(z, u) == u
    ensures forall u :: WallToUtc(z, u) == u
  {
  }
}
