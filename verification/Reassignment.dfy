/** Moving all future bookings of one master onto the open windows of another. */
module Reassignment {
  import opened Basics
  import opened Lifecycles
  import opened Sorting

  datatype Window = Window(business: int, staff: int, startAt: int, endAt: int, status: WindowStatus)

  datatype Appointment = Appointment(
    business: int, staff: int, masterName: string, window: int, service: int,
    startAt: int, endAt: int, status: AppointmentStatus)

  datatype Reservation = Reservation(
    business: int, staff: int, window: int, appointment: Option<int>, status: ReservationStatus)

  datatype Assignment = Assignment(business: int, staff: int, service: int, isActive: bool, isArchived: bool)

  datatype Tables = Tables(
    appointments: map<int, Appointment>, windows: map<int, Window>, reservations: map<int, Reservation>)

  datatype ReassignError = TargetMissingServiceAssignments | TargetMissingExactWindows

  type Key = (int, int)

  function KeyOf(a: Appointment): Key { (a.startAt, a.endAt) }

  /** The status a window has while an occupying booking holds it. */
  function HeldStatus(s: AppointmentStatus): WindowStatus {
    if s == PendingPayment || s == PendingManualConfirmation then Reserved else Booked
  }

  /** Statuses under the unique index on the booked window. */
  predicate HoldsWindow(s: AppointmentStatus) { OccupiesSchedule(s) || s == Completed || s == NoShow }

  ghost predicate Disjoint(s1: int, e1: int, s2: int, e2: int) { e1 <= s2 || e2 <= s1 }

  // ---------------------------------------------------------------------------
  // The calendar invariant

  /** Every occupying booking has its own window, of its master, its interval and the
      status that says so; windows of past bookings are not on offer. */
  ghost predicate BookingsHoldWindows(t: Tables) {
    && (forall a :: a in t.appointments && OccupiesSchedule(t.appointments[a].status) ==>
          var x := t.appointments[a];
          && x.startAt < x.endAt && x.window in t.windows
          && t.windows[x.window] == Window(x.business, x.staff, x.startAt, x.endAt, HeldStatus(x.status)))
    && (forall a :: a in t.appointments && HoldsWindow(t.appointments[a].status) ==>
          t.appointments[a].window in t.windows && t.windows[t.appointments[a].window].status != Open)
  }

  /** The unique index `uq_appointments_occupied_window`. */
  ghost predicate OneBookingPerWindow(t: Tables) {
    forall a, b ::
      (a in t.appointments && b in t.appointments && a != b
       && HoldsWindow(t.appointments[a].status) && HoldsWindow(t.appointments[b].status)) ==>
        t.appointments[a].window != t.appointments[b].window
  }

  /** The exclusion constraint `ex_availability_windows_active_overlap`. */
  ghost predicate WindowsDisjoint(t: Tables) {
    forall v, w ::
      (v in t.windows && w in t.windows && v != w && t.windows[v].staff == t.windows[w].staff
       && ActiveWindow(t.windows[v].status) && ActiveWindow(t.windows[w].status)) ==>
        Disjoint(t.windows[v].startAt, t.windows[v].endAt, t.windows[w].startAt, t.windows[w].endAt)
  }

  /** The exclusion constraint `ex_appointments_staff_active_overlap`. */
  ghost predicate BookingsDisjoint(t: Tables) {
    forall a, b ::
      (a in t.appointments && b in t.appointments && a != b
       && t.appointments[a].staff == t.appointments[b].staff
       && OccupiesSchedule(t.appointments[a].status) && OccupiesSchedule(t.appointments[b].status)) ==>
        Disjoint(t.appointments[a].startAt, t.appointments[a].endAt, t.appointments[b].startAt, t.appointments[b].endAt)
  }

  /** A live hold keeps a window of its own (`uq_booking_reservations_active_window`) that is
      not on offer, and belongs to the booking of that window if there is one. */
  ghost predicate HoldsAreLinked(t: Tables) {
    && (forall r :: r in t.reservations && LiveHold(t.reservations[r].status) ==>
          t.reservations[r].window in t.windows && t.windows[t.reservations[r].window].status != Open)
    && (forall r, q ::
          (r in t.reservations && q in t.reservations && r != q
           && LiveHold(t.reservations[r].status) && LiveHold(t.reservations[q].status)) ==>
            t.reservations[r].window != t.reservations[q].window)
    && (forall r, a ::
          (r in t.reservations && a in t.appointments
           && LiveHold(t.reservations[r].status) && OccupiesSchedule(t.appointments[a].status)
           && t.reservations[r].window == t.appointments[a].window) ==>
            t.reservations[r].appointment == Some(a))
  }

  /** A live hold of an occupying booking names the same business, master and window. Rows that
      are no longer live, and how many rows a booking has, are not constrained. */
  ghost predicate HoldsMatch(t: Tables) {
    forall r :: r in t.reservations && LiveHold(t.reservations[r].status) ==> Matches(t, t.reservations[r])
  }

  ghost predicate Matches(t: Tables, x: Reservation) {
    x.appointment.Some? && x.appointment.value in t.appointments ==>
      var a := t.appointments[x.appointment.value];
      OccupiesSchedule(a.status) ==> x.window == a.window && x.staff == a.staff && x.business == a.business
  }

  /** The check constraint on windows. */
  ghost predicate WindowsPositive(t: Tables) {
    forall w :: w in t.windows ==> t.windows[w].startAt < t.windows[w].endAt
  }

  /** The part of the invariant about bookings and windows. */
  ghost predicate BookingsConsistent(t: Tables) {
    WindowsPositive(t) && BookingsHoldWindows(t) && OneBookingPerWindow(t) && WindowsDisjoint(t)
  }

  ghost predicate Consistent(t: Tables) {
    BookingsConsistent(t) && HoldsAreLinked(t) && HoldsMatch(t)
  }

  /** The invariant implies the exclusion constraint on appointments. */
  lemma ConsistentBookingsDisjoint(t: Tables)
    requires BookingsConsistent(t)
    ensures BookingsDisjoint(t)
  {
    forall a, b | a in t.appointments && b in t.appointments && a != b
      && t.appointments[a].staff == t.appointments[b].staff
      && OccupiesSchedule(t.appointments[a].status) && OccupiesSchedule(t.appointments[b].status)
      ensures Disjoint(t.appointments[a].startAt, t.appointments[a].endAt,
                       t.appointments[b].startAt, t.appointments[b].endAt)
    {
      assert t.appointments[a].window != t.appointments[b].window;
    }
  }

  // ---------------------------------------------------------------------------
  // What the operation does

  /** The bookings that are moved. */
  function FutureBookings(t: Tables, business: int, source: int, now: int): set<int> {
    set a | a in t.appointments && t.appointments[a].business == business && t.appointments[a].staff == source
            && t.appointments[a].startAt >= now && OccupiesSchedule(t.appointments[a].status)
  }

  /** The booking exists and its exact interval is among the target's open windows. */
  predicate Planned(t: Tables, available: map<Key, int>, a: int) {
    a in t.appointments && KeyOf(t.appointments[a]) in available
  }

  function NewWindow(t: Tables, available: map<Key, int>, a: int): int
    requires Planned(t, available, a)
  {
    available[KeyOf(t.appointments[a])]
  }

  ghost predicate Plan(t: Tables, business: int, source: int, target: int, moved: set<int>, available: map<Key, int>) {
    && (forall a :: a in moved ==>
          && Planned(t, available, a)
          && t.appointments[a].business == business && t.appointments[a].staff == source
          && OccupiesSchedule(t.appointments[a].status))
    && (forall k :: k in available ==>
          available[k] in t.windows && t.windows[available[k]] == Window(business, target, k.0, k.1, Open))
  }

  /** The reservation row looked up for a booking, if any. */
  function Linked(linked: map<int, int>, a: int): Option<int> {
    if a in linked then Some(linked[a]) else None
  }

  /** The lookup of reservation rows by booking: some row of the business for every booking that
      has one. Which of several rows is left to the order in which the database lists them. */
  ghost predicate IsLookup(t: Tables, business: int, bookings: set<int>, linked: map<int, int>) {
    && (forall a :: a in linked ==>
          a in bookings && linked[a] in t.reservations && IsRowOf(t.reservations[linked[a]], business, a))
    && (forall a, q :: a in bookings && q in t.reservations && IsRowOf(t.reservations[q], business, a) ==> a in linked)
  }

  predicate IsRowOf(x: Reservation, business: int, a: int) { x.business == business && x.appointment == Some(a) }

  /** The row of the reservation after the move. */
  function ReservationAfter(t: Tables, moved: set<int>, target: int, available: map<Key, int>,
                            linked: map<int, int>, r: int): Reservation
    requires r in t.reservations
  {
    var x := t.reservations[r];
    if x.appointment.Some? && x.appointment.value in moved && Planned(t, available, x.appointment.value)
       && Linked(linked, x.appointment.value) == Some(r)
    then x.(staff := target, window := NewWindow(t, available, x.appointment.value))
    else x
  }

  /** The window is neither left nor taken by a booking that moves. */
  ghost predicate Untouched(t: Tables, moved: set<int>, available: map<Key, int>, w: int) {
    forall a :: a in moved && Planned(t, available, a) ==>
      t.appointments[a].window != w && NewWindow(t, available, a) != w
  }

  /** The tables after moving `moved`: bookings, windows and reservations of the move are as
      stated, and no other row differs in any field. */
  ghost predicate Moved(t: Tables, t': Tables, moved: set<int>, target: int, name: string, available: map<Key, int>,
                        linked: map<int, int>)
    requires forall a :: a in moved ==> Planned(t, available, a)
  {
    && t'.appointments.Keys == t.appointments.Keys
    && t'.windows.Keys == t.windows.Keys
    && t'.reservations.Keys == t.reservations.Keys
    && (forall a :: a in t.appointments ==>
          t'.appointments[a] ==
            if a in moved
            then t.appointments[a].(staff := target, masterName := name, window := NewWindow(t, available, a))
            else t.appointments[a])
    && (forall a :: a in moved && Planned(t, available, a) && t.appointments[a].window in t.windows ==>
          t'.windows[t.appointments[a].window] == t.windows[t.appointments[a].window].(status := Open))
    && (forall a :: a in moved && Planned(t, available, a) && NewWindow(t, available, a) in t.windows ==>
          t'.windows[NewWindow(t, available, a)] ==
            t.windows[NewWindow(t, available, a)].(status := HeldStatus(t.appointments[a].status)))
    && (forall w :: w in t.windows && Untouched(t, moved, available, w) ==> t'.windows[w] == t.windows[w])
    && (forall r :: r in t.reservations ==>
          t'.reservations[r] == ReservationAfter(t, moved, target, available, linked, r))
  }

  /** Distinct bookings are given distinct windows, and no window is both left and taken. */
  lemma PlanIsInjective(t: Tables, business: int, source: int, target: int, moved: set<int>, available: map<Key, int>)
    requires Consistent(t) && Plan(t, business, source, target, moved, available)
    ensures forall a, b :: a in moved && b in moved && a != b ==>
              && NewWindow(t, available, a) != NewWindow(t, available, b)
              && t.appointments[a].window != t.appointments[b].window
    ensures forall a, b :: a in moved && b in moved ==>
              t.appointments[a].window != NewWindow(t, available, b)
  {
    forall a, b | a in moved && b in moved && a != b
      ensures NewWindow(t, available, a) != NewWindow(t, available, b)
           && t.appointments[a].window != t.appointments[b].window
    {
      var x, y := t.appointments[a], t.appointments[b];
      assert x.window != y.window;
      assert Disjoint(x.startAt, x.endAt, y.startAt, y.endAt);
    }
  }

  /** A master's bookings can only be moved to another master. */
  lemma TargetIsAnother(t: Tables, business: int, source: int, target: int, moved: set<int>, available: map<Key, int>)
    requires Consistent(t) && Plan(t, business, source, target, moved, available) && moved != {}
    ensures source != target
  {
    var a := Member(moved);
    var x := t.appointments[a];
    assert t.windows[x.window].status != Open && t.windows[NewWindow(t, available, a)].status == Open;
  }

  lemma MovedKeepsHolds(t: Tables, t': Tables, business: int, source: int, target: int, moved: set<int>,
                        name: string, available: map<Key, int>, linked: map<int, int>)
    requires Consistent(t) && Plan(t, business, source, target, moved, available)
    requires Moved(t, t', moved, target, name, available, linked)
    ensures BookingsHoldWindows(t') && OneBookingPerWindow(t')
  {
    PlanIsInjective(t, business, source, target, moved, available);
    forall a | a in t.appointments && HoldsWindow(t.appointments[a].status) && a !in moved
      ensures Untouched(t, moved, available, t.appointments[a].window)
    {
    }
  }

  lemma MovedKeepsWindows(t: Tables, t': Tables, business: int, source: int, target: int, moved: set<int>,
                          name: string, available: map<Key, int>, linked: map<int, int>)
    requires Consistent(t) && Plan(t, business, source, target, moved, available)
    requires Moved(t, t', moved, target, name, available, linked)
    ensures forall w :: w in t.windows ==>
              t'.windows[w] == t.windows[w].(status := t'.windows[w].status)
              && (ActiveWindow(t'.windows[w].status) <==> ActiveWindow(t.windows[w].status))
    ensures WindowsPositive(t') && WindowsDisjoint(t')
  {
    forall w | w in t.windows
      ensures t'.windows[w] == t.windows[w].(status := t'.windows[w].status)
              && (ActiveWindow(t'.windows[w].status) <==> ActiveWindow(t.windows[w].status))
    {
      if a :| a in moved && (t.appointments[a].window == w || NewWindow(t, available, a) == w) {
      } else {
        assert Untouched(t, moved, available, w);
      }
    }
  }

  /** The live hold belongs to a booking that moves. */
  ghost predicate MovesAlong(t: Tables, moved: set<int>, r: int) {
    && r in t.reservations && LiveHold(t.reservations[r].status)
    && t.reservations[r].appointment.Some? && t.reservations[r].appointment.value in moved
  }

  /** The lookup found every live hold of a booking that moves. */
  ghost predicate TakesLiveHolds(t: Tables, moved: set<int>, linked: map<int, int>) {
    forall r :: MovesAlong(t, moved, r) ==> Linked(linked, t.reservations[r].appointment.value) == Some(r)
  }

  /** A live hold of a booking that moves is its only reservation row in the business. */
  ghost predicate OneRowPerHold(t: Tables, business: int, moved: set<int>) {
    forall r, q ::
      (MovesAlong(t, moved, r) && q in t.reservations
       && IsRowOf(t.reservations[q], business, t.reservations[r].appointment.value)) ==>
        q == r
  }

  lemma HoldAfter(t: Tables, t': Tables, business: int, source: int, target: int, moved: set<int>,
                  name: string, available: map<Key, int>, linked: map<int, int>, r: int)
    requires Consistent(t) && Plan(t, business, source, target, moved, available)
    requires Moved(t, t', moved, target, name, available, linked) && TakesLiveHolds(t, moved, linked)
    requires r in t.reservations && LiveHold(t.reservations[r].status)
    ensures var x, x' := t.reservations[r], t'.reservations[r];
            && x'.status == x.status && x'.appointment == x.appointment
            && (MovesAlong(t, moved, r) ==>
                  && x'.window == NewWindow(t, available, x.appointment.value)
                  && x'.window == t'.appointments[x.appointment.value].window)
            && (!MovesAlong(t, moved, r) ==>
                  x' == x && Untouched(t, moved, available, x.window)
                  && t'.windows[x.window] == t.windows[x.window])
    ensures t'.reservations[r].window in t'.windows && t'.windows[t'.reservations[r].window].status != Open
  {
    var x := t.reservations[r];
    assert t'.reservations[r] == ReservationAfter(t, moved, target, available, linked, r);
    if !MovesAlong(t, moved, r) {
      assert Untouched(t, moved, available, x.window);
    }
  }

  lemma MovedKeepsLinks(t: Tables, t': Tables, business: int, source: int, target: int, moved: set<int>,
                        name: string, available: map<Key, int>, linked: map<int, int>)
    requires Consistent(t) && Plan(t, business, source, target, moved, available)
    requires Moved(t, t', moved, target, name, available, linked) && TakesLiveHolds(t, moved, linked)
    ensures HoldsAreLinked(t')
  {
    PlanIsInjective(t, business, source, target, moved, available);
    forall r | r in t'.reservations && LiveHold(t'.reservations[r].status)
      ensures t'.reservations[r].window in t'.windows && t'.windows[t'.reservations[r].window].status != Open
    {
      HoldAfter(t, t', business, source, target, moved, name, available, linked, r);
    }
    forall r, q | r in t'.reservations && q in t'.reservations && r != q
        && LiveHold(t'.reservations[r].status) && LiveHold(t'.reservations[q].status)
      ensures t'.reservations[r].window != t'.reservations[q].window
    {
      HoldAfter(t, t', business, source, target, moved, name, available, linked, r);
      HoldAfter(t, t', business, source, target, moved, name, available, linked, q);
    }
    forall r, a | r in t'.reservations && a in t'.appointments && LiveHold(t'.reservations[r].status)
        && OccupiesSchedule(t'.appointments[a].status) && t'.reservations[r].window == t'.appointments[a].window
      ensures t'.reservations[r].appointment == Some(a)
    {
      HoldAfter(t, t', business, source, target, moved, name, available, linked, r);
    }
  }

  lemma MovedKeepsMatches(t: Tables, t': Tables, business: int, source: int, target: int, moved: set<int>,
                          name: string, available: map<Key, int>, linked: map<int, int>)
    requires HoldsMatch(t) && Plan(t, business, source, target, moved, available)
    requires Moved(t, t', moved, target, name, available, linked) && TakesLiveHolds(t, moved, linked)
    ensures HoldsMatch(t')
  {
    forall r | r in t'.reservations && LiveHold(t'.reservations[r].status) ensures Matches(t', t'.reservations[r]) {
      var x := t.reservations[r];
      assert t'.reservations[r] == ReservationAfter(t, moved, target, available, linked, r);
      assert Matches(t, x);
      if x.appointment.Some? && x.appointment.value in t.appointments {
        var a := x.appointment.value;
        assert t'.appointments[a].status == t.appointments[a].status;
        assert a in moved ==> Planned(t, available, a) && MovesAlong(t, moved, r);
      }
    }
  }

  /** A live hold that the lookup missed stays on the window that the move reopens. */
  lemma MissedHoldIsLeftBehind(t: Tables, t': Tables, business: int, source: int, target: int, moved: set<int>,
                               name: string, available: map<Key, int>, linked: map<int, int>)
    requires Consistent(t) && Plan(t, business, source, target, moved, available)
    requires Moved(t, t', moved, target, name, available, linked) && !TakesLiveHolds(t, moved, linked)
    ensures !HoldsAreLinked(t')
  {
    var r :| MovesAlong(t, moved, r) && Linked(linked, t.reservations[r].appointment.value) != Some(r);
    var x := t.reservations[r];
    var a := x.appointment.value;
    assert Matches(t, x) && Planned(t, available, a);
    assert t'.reservations[r] == ReservationAfter(t, moved, target, available, linked, r);
    assert t'.reservations[r] == x && t'.windows[t.appointments[a].window].status == Open;
  }

  /** The move keeps every constraint on bookings and windows, and the links of the holds
      exactly when the lookup found every live hold of a booking that moves. */
  lemma MovedIsConsistent(t: Tables, t': Tables, business: int, source: int, target: int, moved: set<int>,
                          name: string, available: map<Key, int>, linked: map<int, int>)
    requires Consistent(t) && Plan(t, business, source, target, moved, available)
    requires Moved(t, t', moved, target, name, available, linked)
    ensures BookingsConsistent(t') && BookingsDisjoint(t')
    ensures Consistent(t') <==> TakesLiveHolds(t, moved, linked)
  {
    MovedKeepsHolds(t, t', business, source, target, moved, name, available, linked);
    MovedKeepsWindows(t, t', business, source, target, moved, name, available, linked);
    if TakesLiveHolds(t, moved, linked) {
      MovedKeepsLinks(t, t', business, source, target, moved, name, available, linked);
      MovedKeepsMatches(t, t', business, source, target, moved, name, available, linked);
    } else {
      MissedHoldIsLeftBehind(t, t', business, source, target, moved, name, available, linked);
    }
    ConsistentBookingsDisjoint(t');
  }

  /** A lookup that finds row `q` for its booking. */
  lemma LookupFinding(t: Tables, business: int, moved: set<int>, a: int, q: int) returns (linked: map<int, int>)
    requires a in moved && q in t.reservations && IsRowOf(t.reservations[q], business, a)
    ensures IsLookup(t, business, moved, linked) && Linked(linked, a) == Some(q)
  {
    linked := map b | b in moved && (exists p :: p in t.reservations && IsRowOf(t.reservations[p], business, b)) ::
      var p :| p in t.reservations && IsRowOf(t.reservations[p], business, b); p;
    linked := linked[a := q];
  }

  /** The move keeps the invariant whatever order the rows are listed in if and only if a live
      hold of a booking that moves is that booking's only row. */
  lemma EveryLookupTakesIff(t: Tables, business: int, moved: set<int>)
    requires Consistent(t)
    requires forall a :: a in moved ==>
               a in t.appointments && t.appointments[a].business == business
               && OccupiesSchedule(t.appointments[a].status)
    ensures OneRowPerHold(t, business, moved) <==>
              forall linked :: IsLookup(t, business, moved, linked) ==> TakesLiveHolds(t, moved, linked)
  {
    if OneRowPerHold(t, business, moved) {
      forall linked, r | IsLookup(t, business, moved, linked) && MovesAlong(t, moved, r)
        ensures Linked(linked, t.reservations[r].appointment.value) == Some(r)
      {
        var a := t.reservations[r].appointment.value;
        assert Matches(t, t.reservations[r]);
        assert IsRowOf(t.reservations[r], business, a);
        assert a in linked;
        var q := linked[a];
        assert q in t.reservations && IsRowOf(t.reservations[q], business, t.reservations[r].appointment.value);
        assert q == r;
      }
    } else {
      var r, q :| MovesAlong(t, moved, r) && q in t.reservations
        && IsRowOf(t.reservations[q], business, t.reservations[r].appointment.value) && q != r;
      var linked := LookupFinding(t, business, moved, t.reservations[r].appointment.value, q);
      assert !TakesLiveHolds(t, moved, linked);
    }
  }

  // ---------------------------------------------------------------------------
  // One booking after another

  /** One turn of the loop. */
  function MoveBooking(t: Tables, a: int, w: int, r: Option<int>, target: int, name: string): Tables
    requires a in t.appointments && t.appointments[a].window in t.windows && w in t.windows
    requires r.Some? ==> r.value in t.reservations
  {
    var x := t.appointments[a];
    var left := t.windows[x.window := t.windows[x.window].(status := Open)];
    Tables(
      t.appointments[a := x.(staff := target, masterName := name, window := w)],
      left[w := left[w].(status := HeldStatus(x.status))],
      if r.Some? then t.reservations[r.value := t.reservations[r.value].(staff := target, window := w)]
      else t.reservations)
  }

  lemma MoveOneMoreWindows(t: Tables, t1: Tables, business: int, source: int, target: int, all: set<int>,
                           moved: set<int>, name: string, available: map<Key, int>, linked: map<int, int>, a: int,
                           w: int)
    requires Consistent(t) && Plan(t, business, source, target, all, available)
    requires moved <= all && a in all && a !in moved && Moved(t, t1, moved, target, name, available, linked)
    requires t1.windows[t.appointments[a].window] == t.windows[t.appointments[a].window]
    requires t1.windows[NewWindow(t, available, a)] == t.windows[NewWindow(t, available, a)]
    requires w in t.windows
    ensures var x, n := t.appointments[a], NewWindow(t, available, a);
            var left := t1.windows[x.window := t1.windows[x.window].(status := Open)];
            var after := left[n := left[n].(status := HeldStatus(x.status))];
            && (Untouched(t, moved + {a}, available, w) ==> after[w] == t.windows[w])
            && (w != x.window && w != n ==> after[w] == t1.windows[w])
  {
    if Untouched(t, moved + {a}, available, w) {
      assert a in moved + {a} && Planned(t, available, a);
      forall b | b in moved && Planned(t, available, b)
        ensures t.appointments[b].window != w && NewWindow(t, available, b) != w
      {
        assert b in moved + {a};
      }
      assert Untouched(t, moved, available, w);
    }
  }

  lemma MoveOneMore(t: Tables, t1: Tables, business: int, source: int, target: int, all: set<int>, moved: set<int>,
                    name: string, available: map<Key, int>, linked: map<int, int>, a: int)
    requires Consistent(t) && Plan(t, business, source, target, all, available)
    requires moved <= all && a in all && a !in moved && Moved(t, t1, moved, target, name, available, linked)
    requires IsLookup(t, business, all, linked)
    ensures t1.appointments[a] == t.appointments[a]
    ensures Found(t1, available, a) == Some(NewWindow(t, available, a))
         && Movable(t1, a, NewWindow(t, available, a), Linked(linked, a))
    ensures Moved(t, MoveBooking(t1, a, NewWindow(t, available, a), Linked(linked, a), target, name),
                  moved + {a}, target, name, available, linked)
  {
    PlanIsInjective(t, business, source, target, all, available);
    var x, n := t.appointments[a], NewWindow(t, available, a);
    assert Untouched(t, moved, available, x.window) && Untouched(t, moved, available, n);
    var t2 := MoveBooking(t1, a, n, Linked(linked, a), target, name);
    var moved' := moved + {a};
    forall w | w in t.windows && Untouched(t, moved', available, w) ensures t2.windows[w] == t.windows[w] {
      MoveOneMoreWindows(t, t1, business, source, target, all, moved, name, available, linked, a, w);
    }
    forall b | b in moved'
      ensures t2.windows[t.appointments[b].window] == t.windows[t.appointments[b].window].(status := Open)
      ensures t2.windows[NewWindow(t, available, b)] ==
                t.windows[NewWindow(t, available, b)].(status := HeldStatus(t.appointments[b].status))
    {
      MoveOneMoreWindows(t, t1, business, source, target, all, moved, name, available, linked, a,
                         t.appointments[b].window);
      MoveOneMoreWindows(t, t1, business, source, target, all, moved, name, available, linked, a,
                         NewWindow(t, available, b));
    }
    forall q | q in t.reservations
      ensures t2.reservations[q] == ReservationAfter(t, moved', target, available, linked, q)
    {
      MoveOneMoreReservation(t, business, all, target, moved, available, linked, a, q);
      assert t1.reservations[q] == ReservationAfter(t, moved, target, available, linked, q);
    }
  }

  lemma MoveOneMoreReservation(t: Tables, business: int, all: set<int>, target: int, moved: set<int>,
                               available: map<Key, int>, linked: map<int, int>, a: int, q: int)
    requires IsLookup(t, business, all, linked) && a !in moved && Planned(t, available, a) && q in t.reservations
    ensures var x := t.reservations[q];
            ReservationAfter(t, moved + {a}, target, available, linked, q) ==
              if Linked(linked, a) == Some(q) then x.(staff := target, window := NewWindow(t, available, a))
              else ReservationAfter(t, moved, target, available, linked, q)
    ensures Linked(linked, a) == Some(q) ==>
              ReservationAfter(t, moved, target, available, linked, q) == t.reservations[q]
  {
  }

  predicate Movable(t: Tables, a: int, w: int, r: Option<int>) {
    && a in t.appointments && t.appointments[a].window in t.windows && w in t.windows
    && (r.Some? ==> r.value in t.reservations)
  }

  /** The window found for a booking under its interval. */
  function Found(t: Tables, available: map<Key, int>, a: int): Option<int> {
    if Planned(t, available, a) then Some(NewWindow(t, available, a)) else None
  }

  /** The loop's effect on the tables, as far as its lookups succeed. */
  function MoveSome(t: Tables, ids: seq<int>, available: map<Key, int>, linked: map<int, int>,
                    target: int, name: string): Option<Tables>
  {
    if ids == [] then Some(t)
    else
      var a := ids[|ids| - 1];
      var t1 := MoveSome(t, ids[..|ids| - 1], available, linked, target, name);
      if t1.None? then None
      else
        var w := Found(t1.value, available, a);
        if w.None? || !Movable(t1.value, a, w.value, Linked(linked, a)) then None
        else Some(MoveBooking(t1.value, a, w.value, Linked(linked, a), target, name))
  }

  lemma ElementsSnoc(ids: seq<int>, i: nat)
    requires 0 < i <= |ids| && forall j, k :: 0 <= j < k < |ids| ==> ids[j] != ids[k]
    ensures Elements(ids[..i]) == Elements(ids[..i - 1]) + {ids[i - 1]}
    ensures ids[i - 1] !in Elements(ids[..i - 1])
    ensures Elements(ids[..i - 1]) <= Elements(ids) && ids[i - 1] in Elements(ids)
  {
    assert ids[..i] == ids[..i - 1] + [ids[i - 1]];
    var front := ids[..i - 1];
    forall j | 0 <= j < |front| ensures front[j] != ids[i - 1] && front[j] in ids {
      assert front[j] == ids[j];
    }
  }

  /** Every lookup of the loop succeeds, and together its turns make the move. */
  lemma {:induction false} MoveSomeIsMoved(t: Tables, business: int, source: int, target: int, ordered: seq<int>,
                                           i: nat, name: string, available: map<Key, int>, linked: map<int, int>)
    requires Consistent(t) && Plan(t, business, source, target, Elements(ordered), available)
    requires forall j, k :: 0 <= j < k < |ordered| ==> ordered[j] != ordered[k]
    requires IsLookup(t, business, Elements(ordered), linked)
    requires i <= |ordered|
    ensures MoveSome(t, ordered[..i], available, linked, target, name).Some?
    ensures Moved(t, MoveSome(t, ordered[..i], available, linked, target, name).value,
                  Elements(ordered[..i]), target, name, available, linked)
  {
    hide Consistent, Plan, IsLookup, MoveBooking;
    if i > 0 {
      hide Moved;
      MoveSomeIsMoved(t, business, source, target, ordered, i - 1, name, available, linked);
      ElementsSnoc(ordered, i);
      var a := ordered[i - 1];
      assert ordered[..i][..i - 1] == ordered[..i - 1];
      var t1 := MoveSome(t, ordered[..i - 1], available, linked, target, name).value;
      MoveOneMore(t, t1, business, source, target, Elements(ordered), Elements(ordered[..i - 1]), name, available,
                  linked, a);
    }
  }

  // ---------------------------------------------------------------------------
  // A booking with two reservation rows

  function TwoRows(): Tables {
    Tables(
      map[1 := Appointment(1, 1, "A", 10, 1, 0, 60, Confirmed)],
      map[10 := Window(1, 1, 0, 60, Booked), 20 := Window(1, 2, 0, 60, Open)],
      map[5 := Reservation(1, 1, 10, Some(1), ExpiredHold), 6 := Reservation(1, 1, 10, Some(1), Active)])
  }

  /** When the lookup keeps the expired one of two rows, the live hold stays behind on the
      window that the move reopens. */
  lemma SecondRowIsLeftBehind()
    ensures var t := TwoRows();
            && Consistent(t) && IsLookup(t, 1, {1}, map[1 := 5]) && !OneRowPerHold(t, 1, {1})
            && !HoldsAreLinked(MoveBooking(t, 1, 20, Some(5), 2, "B"))
  {
    TwoRowsConsistent();
    hide BookingsConsistent;
    var t := TwoRows();
    assert MovesAlong(t, {1}, 6) && IsRowOf(t.reservations[5], 1, 1);
    var t' := MoveBooking(t, 1, 20, Some(5), 2, "B");
    assert t'.reservations[6].window == 10 && t'.windows[10].status == Open;
  }

  lemma TwoRowsConsistent()
    ensures BookingsConsistent(TwoRows())
  {
  }

  // ---------------------------------------------------------------------------
  // The operation

  predicate ByStart(appointments: map<int, Appointment>, a: int, b: int) {
    var x, y := (if a in appointments then appointments[a].startAt else 0),
                (if b in appointments then appointments[b].startAt else 0);
    x < y || (x == y && a <= b)
  }

  lemma ByStartIsOrder(appointments: map<int, Appointment>)
    ensures TotalPreorder((a, b) => ByStart(appointments, a, b))
  {
  }

  /** The target offers the service. */
  predicate Serves(assignments: set<Assignment>, business: int, staff: int, service: int) {
    Assignment(business, staff, service, true, false) in assignments
  }

  function ServicesOf(t: Tables, bookings: seq<int>): set<int>
    requires forall a :: a in bookings ==> a in t.appointments
  {
    set a | a in bookings :: t.appointments[a].service
  }

  /** The services among `wanted` that the target is actively assigned to. */
  function ServedBy(assignments: set<Assignment>, business: int, target: int, wanted: set<int>): set<int> {
    set x | x in assignments && x.business == business && x.staff == target
            && x.service in wanted && x.isActive && !x.isArchived :: x.service
  }

  lemma ServesAll(t: Tables, assignments: set<Assignment>, business: int, target: int, bookings: seq<int>)
    requires forall a :: a in bookings ==> a in t.appointments
    ensures var wanted := ServicesOf(t, bookings);
            ServedBy(assignments, business, target, wanted) == wanted <==>
              forall a :: a in bookings ==> Serves(assignments, business, target, t.appointments[a].service)
  {
    var wanted := ServicesOf(t, bookings);
    var served := ServedBy(assignments, business, target, wanted);
    forall s ensures s in served <==> s in wanted && Serves(assignments, business, target, s) {
      var x := Assignment(business, target, s, true, false);
      assert x in assignments && s in wanted ==> x.service in served;
    }
    assert forall a :: a in bookings ==> t.appointments[a].service in wanted;
  }

  function StartsOf(t: Tables, bookings: seq<int>): set<int>
    requires forall a :: a in bookings ==> a in t.appointments
  {
    set a | a in bookings :: t.appointments[a].startAt
  }

  /** The target's open windows at those starts, by their interval. */
  function OpenWindows(t: Tables, business: int, target: int, starts: set<int>): map<Key, int>
    requires WindowsPositive(t) && WindowsDisjoint(t)
  {
    map w | w in t.windows && t.windows[w].business == business && t.windows[w].staff == target
            && t.windows[w].status == Open && t.windows[w].startAt in starts
         :: (t.windows[w].startAt, t.windows[w].endAt) := w
  }

  /** Some booking's exact interval is not offered by the target. */
  ghost predicate NoExactWindow(t: Tables, business: int, target: int, a: int) {
    a in t.appointments &&
    forall w :: w in t.windows ==>
      t.windows[w] != Window(business, target, t.appointments[a].startAt, t.appointments[a].endAt, Open)
  }

  lemma OpenWindowsAreExact(t: Tables, business: int, source: int, target: int, now: int, bookings: seq<int>)
    requires Consistent(t)
    requires forall a :: a in bookings <==> a in FutureBookings(t, business, source, now)
    ensures var available := OpenWindows(t, business, target, StartsOf(t, bookings));
            && (forall a :: a in bookings ==> (Planned(t, available, a) <==> !NoExactWindow(t, business, target, a)))
            && ((forall a :: a in bookings ==> Planned(t, available, a)) ==>
                  Plan(t, business, source, target, FutureBookings(t, business, source, now), available))
  {
    var starts := StartsOf(t, bookings);
    var available := OpenWindows(t, business, target, starts);
    forall a | a in bookings ensures Planned(t, available, a) <==> !NoExactWindow(t, business, target, a) {
      var x := t.appointments[a];
      assert x.startAt in starts;
      forall w | w in t.windows && t.windows[w] == Window(business, target, x.startAt, x.endAt, Open)
        ensures KeyOf(x) in available
      {
        assert (t.windows[w].startAt, t.windows[w].endAt) in available;
      }
    }
  }

  /** All of `moved` moved, onto windows and with reservation rows that were properly found. */
  ghost predicate MovedByPlan(t: Tables, t': Tables, business: int, source: int, target: int, moved: set<int>,
                              name: string)
  {
    exists available: map<Key, int>, linked: map<int, int> ::
      && Plan(t, business, source, target, moved, available)
      && IsLookup(t, business, moved, linked)
      && Moved(t, t', moved, target, name, available, linked)
  }

  /** What the operation returns and does, in every case. */
  ghost predicate Outcome(t: Tables, t': Tables, assignments: set<Assignment>, business: int, source: int, target: int,
                          name: string, now: int, r: Result<nat, ReassignError>)
  {
    var all := FutureBookings(t, business, source, now);
    if exists a :: a in all && !Serves(assignments, business, target, t.appointments[a].service)
    then r == Err(TargetMissingServiceAssignments) && t' == t
    else if exists a :: a in all && NoExactWindow(t, business, target, a)
    then r == Err(TargetMissingExactWindows) && t' == t
    else r == Ok(|all|) && MovedByPlan(t, t', business, source, target, all, name)
  }

  // The same in columns.

  /** The booking is the source's, in the business, not before now, and takes up its time. */
  ghost predicate DueToMove(t: Tables, business: int, source: int, now: int, a: int) {
    && a in t.appointments
    && t.appointments[a].business == business && t.appointments[a].staff == source && now <= t.appointments[a].startAt
    && (t.appointments[a].status == PendingPayment || t.appointments[a].status == PendingManualConfirmation
        || t.appointments[a].status == Confirmed || t.appointments[a].status == ClientConfirmed)
  }

  ghost predicate Offers(assignments: set<Assignment>, business: int, target: int, service: int) {
    exists x :: x in assignments && x.business == business && x.staff == target && x.service == service
                && x.isActive && !x.isArchived
  }

  /** The window is the target's, open, and has just the booking's times. */
  ghost predicate Suits(t: Tables, business: int, target: int, a: int, w: int) {
    && a in t.appointments && w in t.windows && t.windows[w].business == business && t.windows[w].staff == target
    && t.windows[w].startAt == t.appointments[a].startAt && t.windows[w].endAt == t.appointments[a].endAt
    && t.windows[w].status == Open
  }

  /** The booking has gone to the target and a window that suited it, now reserved for a pending
      booking and booked for any other; the window that it had is open. */
  ghost predicate GoneOver(t: Tables, t': Tables, business: int, target: int, name: string, a: int)
    requires a in t.appointments
  {
    && a in t'.appointments
    && var x, y := t.appointments[a], t'.appointments[a];
       && y.staff == target && y.masterName == name && Suits(t, business, target, a, y.window)
       && y.business == x.business && y.service == x.service && y.startAt == x.startAt && y.endAt == x.endAt
       && y.status == x.status
       && y.window in t'.windows && x.window in t'.windows && t'.windows[x.window].status == Open
       && t'.windows[y.window].status ==
            if x.status == PendingPayment || x.status == PendingManualConfirmation then Reserved else Booked
  }

  ghost predicate BookingsMoved(t: Tables, t': Tables, business: int, source: int, target: int, name: string,
                                now: int)
  {
    && t'.appointments.Keys == t.appointments.Keys
    && (forall a :: a in t.appointments ==>
          if DueToMove(t, business, source, now, a) then GoneOver(t, t', business, target, name, a)
          else t'.appointments[a] == t.appointments[a])
    && forall a :: !DueToMove(t', business, source, now, a)
  }

  /** Windows keep all but their status, and that unless a moved booking had or got them. */
  ghost predicate WindowsFollow(t: Tables, t': Tables, business: int, source: int, now: int) {
    && t'.windows.Keys == t.windows.Keys
    && forall w :: w in t.windows ==>
         var x, y := t.windows[w], t'.windows[w];
         && y.business == x.business && y.staff == x.staff && y.startAt == x.startAt && y.endAt == x.endAt
         && (y.status == x.status || exists a :: HadOrGot(t, t', business, source, now, a, w))
  }

  ghost predicate HadOrGot(t: Tables, t': Tables, business: int, source: int, now: int, a: int, w: int) {
    && DueToMove(t, business, source, now, a) && a in t'.appointments
    && (t.appointments[a].window == w || t'.appointments[a].window == w)
  }

  /** A reservation row changes only with its booking, in master and window. */
  ghost predicate HoldsFollow(t: Tables, t': Tables, business: int, source: int, target: int, now: int) {
    && t'.reservations.Keys == t.reservations.Keys
    && forall r :: r in t.reservations ==>
         || t'.reservations[r] == t.reservations[r]
         || exists a :: TakenAlong(t, t', business, source, target, now, a, r)
  }

  ghost predicate TakenAlong(t: Tables, t': Tables, business: int, source: int, target: int, now: int, a: int, r: int) {
    && DueToMove(t, business, source, now, a) && a in t'.appointments && r in t.reservations && r in t'.reservations
    && var x, y := t.reservations[r], t'.reservations[r];
       && x.appointment == Some(a) && x.business == business
       && y == Reservation(x.business, target, t'.appointments[a].window, x.appointment, x.status)
  }

  /** Every moved booking with a reservation row in the business takes one along. */
  ghost predicate OneTakenAlong(t: Tables, t': Tables, business: int, source: int, target: int, now: int) {
    forall a, q :: DueToMove(t, business, source, now, a) && q in t.reservations
                   && t.reservations[q].appointment == Some(a) && t.reservations[q].business == business ==>
      exists r :: TakenAlong(t, t', business, source, target, now, a, r)
  }

  ghost predicate Unserved(t: Tables, assignments: set<Assignment>, business: int, source: int, target: int, now: int) {
    exists a :: DueToMove(t, business, source, now, a)
                && !Offers(assignments, business, target, t.appointments[a].service)
  }

  ghost predicate Unplaced(t: Tables, business: int, source: int, target: int, now: int) {
    exists a :: DueToMove(t, business, source, now, a) && forall w :: !Suits(t, business, target, a, w)
  }

  /** Each error exactly for its reason and with nothing changed; else every booking that is due
      moves, counted, and nothing else. */
  ghost predicate Told(t: Tables, t': Tables, assignments: set<Assignment>, business: int, source: int, target: int,
                       name: string, now: int, r: Result<nat, ReassignError>)
  {
    && (r == Err(TargetMissingServiceAssignments) <==> Unserved(t, assignments, business, source, target, now))
    && (r == Err(TargetMissingExactWindows) <==>
          !Unserved(t, assignments, business, source, target, now) && Unplaced(t, business, source, target, now))
    && (r.Err? ==> t' == t)
    && (r.Ok? ==>
          && r.value == |set a | a in t.appointments && DueToMove(t, business, source, now, a)|
          && BookingsMoved(t, t', business, source, target, name, now) && WindowsFollow(t, t', business, source, now)
          && HoldsFollow(t, t', business, source, target, now) && OneTakenAlong(t, t', business, source, target, now))
  }

  lemma FutureIsDue(t: Tables, business: int, source: int, now: int)
    ensures forall a :: a in FutureBookings(t, business, source, now) <==> DueToMove(t, business, source, now, a)
    ensures FutureBookings(t, business, source, now) ==
              set a | a in t.appointments && DueToMove(t, business, source, now, a)
  {
  }

  lemma ErrorsAreTold(t: Tables, assignments: set<Assignment>, business: int, source: int, target: int, now: int)
    ensures var all := FutureBookings(t, business, source, now);
            && (Unserved(t, assignments, business, source, target, now) <==>
                  exists a :: a in all && !Serves(assignments, business, target, t.appointments[a].service))
            && (Unplaced(t, business, source, target, now) <==>
                  exists a :: a in all && NoExactWindow(t, business, target, a))
  {
    FutureIsDue(t, business, source, now);
    hide FutureBookings, DueToMove;
    forall service ensures Offers(assignments, business, target, service) <==>
                           Serves(assignments, business, target, service)
    {
      if Offers(assignments, business, target, service) {
        var x :| x in assignments && x.business == business && x.staff == target && x.service == service
                 && x.isActive && !x.isArchived;
        assert x == Assignment(business, target, service, true, false);
      }
    }
    hide Offers, Serves;
    forall a | a in t.appointments
      ensures NoExactWindow(t, business, target, a) <==> forall w :: !Suits(t, business, target, a, w)
    {
      var x := t.appointments[a];
      forall w | w in t.windows
        ensures Suits(t, business, target, a, w) <==> t.windows[w] == Window(business, target, x.startAt, x.endAt, Open)
      {
      }
    }
    hide Suits, NoExactWindow;
  }

  lemma MoveIsTold(t: Tables, t': Tables, business: int, source: int, target: int, name: string, now: int,
                   moved: set<int>, available: map<Key, int>, linked: map<int, int>)
    requires Consistent(t) && moved == FutureBookings(t, business, source, now)
    requires Plan(t, business, source, target, moved, available) && IsLookup(t, business, moved, linked)
    requires Moved(t, t', moved, target, name, available, linked)
    ensures BookingsMoved(t, t', business, source, target, name, now)
    ensures WindowsFollow(t, t', business, source, now)
  {
    FutureIsDue(t, business, source, now);
    BookingsAreMoved(t, t', business, source, target, name, now, moved, available, linked);
    MovedKeepsWindows(t, t', business, source, target, moved, name, available, linked);
    hide Consistent, DueToMove, FutureBookings;
    forall w | w in t.windows && t'.windows[w].status != t.windows[w].status
      ensures exists a :: HadOrGot(t, t', business, source, now, a, w)
    {
      var a :| a in moved && (t.appointments[a].window == w || NewWindow(t, available, a) == w);
      assert HadOrGot(t, t', business, source, now, a, w);
    }
  }

  lemma BookingsAreMoved(t: Tables, t': Tables, business: int, source: int, target: int, name: string, now: int,
                         moved: set<int>, available: map<Key, int>, linked: map<int, int>)
    requires Consistent(t) && moved == FutureBookings(t, business, source, now)
    requires Plan(t, business, source, target, moved, available) && IsLookup(t, business, moved, linked)
    requires Moved(t, t', moved, target, name, available, linked)
    ensures BookingsMoved(t, t', business, source, target, name, now)
  {
    FutureIsDue(t, business, source, now);
    if moved != {} { TargetIsAnother(t, business, source, target, moved, available); }
    forall a | a in t.appointments
      ensures if DueToMove(t, business, source, now, a) then GoneOver(t, t', business, target, name, a)
              else t'.appointments[a] == t.appointments[a]
    {
      assert a in moved ==> Planned(t, available, a);
    }
    forall a ensures !DueToMove(t', business, source, now, a) {
      assert a in moved ==> a in t.appointments && t'.appointments[a].staff == target;
      assert a in t.appointments && a !in moved ==> t'.appointments[a] == t.appointments[a];
    }
  }

  lemma HoldsAreTold(t: Tables, t': Tables, business: int, source: int, target: int, name: string, now: int,
                     moved: set<int>, available: map<Key, int>, linked: map<int, int>)
    requires moved == FutureBookings(t, business, source, now)
    requires Plan(t, business, source, target, moved, available) && IsLookup(t, business, moved, linked)
    requires Moved(t, t', moved, target, name, available, linked)
    ensures HoldsFollow(t, t', business, source, target, now)
    ensures OneTakenAlong(t, t', business, source, target, now)
  {
    FutureIsDue(t, business, source, now);
    hide FutureBookings, DueToMove;
    forall r | r in t.reservations && t'.reservations[r] != t.reservations[r]
      ensures exists a :: TakenAlong(t, t', business, source, target, now, a, r)
    {
      assert t'.reservations[r] == ReservationAfter(t, moved, target, available, linked, r);
      var a := t.reservations[r].appointment.value;
      assert TakenAlong(t, t', business, source, target, now, a, r);
    }
    forall a, q | DueToMove(t, business, source, now, a) && q in t.reservations
        && t.reservations[q].appointment == Some(a) && t.reservations[q].business == business
      ensures exists r :: TakenAlong(t, t', business, source, target, now, a, r)
    {
      assert IsRowOf(t.reservations[q], business, a);
      var r := linked[a];
      assert t'.reservations[r] == ReservationAfter(t, moved, target, available, linked, r);
      assert TakenAlong(t, t', business, source, target, now, a, r);
    }
  }

  lemma OutcomeIsTold(t: Tables, t': Tables, assignments: set<Assignment>, business: int, source: int, target: int,
                      name: string, now: int, r: Result<nat, ReassignError>)
    requires Consistent(t) && Outcome(t, t', assignments, business, source, target, name, now, r)
    ensures Told(t, t', assignments, business, source, target, name, now, r)
  {
    ErrorsAreTold(t, assignments, business, source, target, now);
    FutureIsDue(t, business, source, now);
    hide Consistent, Unserved, Unplaced, DueToMove, FutureBookings, BookingsMoved, WindowsFollow, HoldsFollow,
      OneTakenAlong, IsLookup, Moved, NoExactWindow, Serves;
    if r.Ok? {
      var all := FutureBookings(t, business, source, now);
      var available: map<Key, int>, linked: map<int, int> :|
        Plan(t, business, source, target, all, available) && IsLookup(t, business, all, linked)
        && Moved(t, t', all, target, name, available, linked);
      MoveIsTold(t, t', business, source, target, name, now, all, available, linked);
      HoldsAreTold(t, t', business, source, target, name, now, all, available, linked);
    }
  }

  lemma NothingToMove(t: Tables, assignments: set<Assignment>, business: int, source: int, target: int,
                      name: string, now: int, ordered: seq<int>)
    requires forall a :: a in ordered <==> a in FutureBookings(t, business, source, now)
    requires ordered == []
    ensures Outcome(t, t, assignments, business, source, target, name, now, Ok(0))
  {
    var all := FutureBookings(t, business, source, now);
    assert forall a :: a in all ==> a in ordered;
    assert all == {};
    assert Plan(t, business, source, target, all, map[]) && IsLookup(t, business, all, map[])
      && Moved(t, t, all, target, name, map[], map[]);
    assert MovedByPlan(t, t, business, source, target, all, name);
  }

  lemma ConsistentParts(t: Tables)
    requires Consistent(t)
    ensures WindowsPositive(t) && WindowsDisjoint(t) && BookingsConsistent(t)
  {
  }

  /** Every turn of the loop succeeds and the turns together make the move. */
  lemma LoopMovesAll(t: Tables, business: int, source: int, target: int, name: string, now: int, ordered: seq<int>,
                     available: map<Key, int>, linked: map<int, int>)
    requires Consistent(t) && Plan(t, business, source, target, FutureBookings(t, business, source, now), available)
    requires forall a :: a in ordered <==> a in FutureBookings(t, business, source, now)
    requires forall i, j :: 0 <= i < j < |ordered| ==> ordered[i] != ordered[j]
    requires IsLookup(t, business, FutureBookings(t, business, source, now), linked)
    ensures MoveSome(t, ordered, available, linked, target, name).Some?
    ensures Moved(t, MoveSome(t, ordered, available, linked, target, name).value,
                  FutureBookings(t, business, source, now), target, name, available, linked)
  {
    ElementsAre(ordered, FutureBookings(t, business, source, now));
    hide *;
    MoveSomeIsMoved(t, business, source, target, ordered, |ordered|, name, available, linked);
    assert ordered[..|ordered|] == ordered;
  }

  lemma {:induction false} EarlierTurnsSucceed(t: Tables, ids: seq<int>, i: nat,
                                               available: map<Key, int>, linked: map<int, int>,
                                               target: int, name: string)
    requires i <= |ids| && MoveSome(t, ids, available, linked, target, name).Some?
    ensures MoveSome(t, ids[..i], available, linked, target, name).Some?
  {
    if i < |ids| {
      EarlierTurnsSucceed(t, ids[..|ids| - 1], i, available, linked, target, name);
      assert ids[..|ids| - 1][..i] == ids[..i];
    } else {
      assert ids[..i] == ids;
    }
  }

  lemma UnservedIsOutcome(t: Tables, assignments: set<Assignment>, business: int, source: int, target: int,
                          name: string, now: int, ordered: seq<int>)
    requires forall a :: a in ordered <==> a in FutureBookings(t, business, source, now)
    requires ServedBy(assignments, business, target, ServicesOf(t, ordered)) != ServicesOf(t, ordered)
    ensures Outcome(t, t, assignments, business, source, target, name, now, Err(TargetMissingServiceAssignments))
  {
    ServesAll(t, assignments, business, target, ordered);
    var a :| a in ordered && !Serves(assignments, business, target, t.appointments[a].service);
    assert a in FutureBookings(t, business, source, now);
  }

  lemma UnplacedIsOutcome(t: Tables, assignments: set<Assignment>, business: int, source: int, target: int,
                          name: string, now: int, ordered: seq<int>, a: int)
    requires Consistent(t)
    requires forall a :: a in ordered <==> a in FutureBookings(t, business, source, now)
    requires ServedBy(assignments, business, target, ServicesOf(t, ordered)) == ServicesOf(t, ordered)
    requires a in ordered && !Planned(t, OpenWindows(t, business, target, StartsOf(t, ordered)), a)
    ensures Outcome(t, t, assignments, business, source, target, name, now, Err(TargetMissingExactWindows))
  {
    ServesAll(t, assignments, business, target, ordered);
    OpenWindowsAreExact(t, business, source, target, now, ordered);
    hide Consistent, OpenWindows, NoExactWindow, Plan, ServedBy;
    assert a in FutureBookings(t, business, source, now) && NoExactWindow(t, business, target, a);
    assert forall b :: b in FutureBookings(t, business, source, now) ==> b in ordered;
  }

  lemma ChecksPass(t: Tables, assignments: set<Assignment>, business: int, source: int, target: int, now: int,
                   ordered: seq<int>)
    requires Consistent(t)
    requires forall a :: a in ordered <==> a in FutureBookings(t, business, source, now)
    requires ServedBy(assignments, business, target, ServicesOf(t, ordered)) == ServicesOf(t, ordered)
    requires forall a :: a in ordered ==> Planned(t, OpenWindows(t, business, target, StartsOf(t, ordered)), a)
    ensures forall a :: a in FutureBookings(t, business, source, now) ==>
              a in t.appointments && Serves(assignments, business, target, t.appointments[a].service)
              && !NoExactWindow(t, business, target, a)
  {
    ServesAll(t, assignments, business, target, ordered);
    OpenWindowsAreExact(t, business, source, target, now, ordered);
    hide Consistent, OpenWindows, NoExactWindow, Plan, ServedBy;
    forall a | a in FutureBookings(t, business, source, now)
      ensures Serves(assignments, business, target, t.appointments[a].service) && !NoExactWindow(t, business, target, a)
    {
      assert a in ordered;
    }
  }

  lemma MoveIsOutcome(t: Tables, t': Tables, assignments: set<Assignment>, business: int, source: int, target: int,
                      name: string, now: int, available: map<Key, int>, linked: map<int, int>)
    requires var all := FutureBookings(t, business, source, now);
             && Plan(t, business, source, target, all, available)
             && IsLookup(t, business, all, linked)
             && Moved(t, t', all, target, name, available, linked)
             && (forall a :: a in all ==>
                   a in t.appointments && Serves(assignments, business, target, t.appointments[a].service)
                   && !NoExactWindow(t, business, target, a))
    ensures Outcome(t, t', assignments, business, source, target, name, now,
                    Ok(|FutureBookings(t, business, source, now)|))
  {
    hide NoExactWindow, Plan, Moved, IsLookup;
  }

  /** What the checks before the loop establish. */
  ghost predicate Ready(t: Tables, assignments: set<Assignment>, business: int, source: int, target: int, now: int,
                        ordered: seq<int>, available: map<Key, int>, linked: map<int, int>)
  {
    && Consistent(t)
    && (forall a :: a in ordered <==> a in FutureBookings(t, business, source, now))
    && (forall i, j :: 0 <= i < j < |ordered| ==> ordered[i] != ordered[j])
    && |ordered| == |FutureBookings(t, business, source, now)|
    && ServedBy(assignments, business, target, ServicesOf(t, ordered)) == ServicesOf(t, ordered)
    && available == OpenWindows(t, business, target, StartsOf(t, ordered))
    && (forall a :: a in ordered ==> Planned(t, available, a))
    && IsLookup(t, business, FutureBookings(t, business, source, now), linked)
  }

  lemma ReadyMoves(t: Tables, assignments: set<Assignment>, business: int, source: int, target: int, name: string,
                   now: int, ordered: seq<int>, available: map<Key, int>, linked: map<int, int>)
    requires Ready(t, assignments, business, source, target, now, ordered, available, linked)
    ensures MoveSome(t, ordered, available, linked, target, name).Some?
    ensures var t' := MoveSome(t, ordered, available, linked, target, name).value;
            && BookingsConsistent(t') && BookingsDisjoint(t')
            && (OneRowPerHold(t, business, FutureBookings(t, business, source, now)) ==> Consistent(t'))
            && Outcome(t, t', assignments, business, source, target, name, now, Ok(|ordered|))
  {
    ConsistentParts(t);
    OpenWindowsAreExact(t, business, source, target, now, ordered);
    ChecksPass(t, assignments, business, source, target, now, ordered);
    EveryLookupTakesIff(t, business, FutureBookings(t, business, source, now));
    hide Consistent, WindowsPositive, WindowsDisjoint, BookingsConsistent, BookingsDisjoint, FutureBookings, Plan,
      Moved, Outcome, MoveSome, IsLookup, OpenWindows, OneRowPerHold, TakesLiveHolds, ServedBy, ServicesOf, StartsOf,
      NoExactWindow;
    LoopMovesAll(t, business, source, target, name, now, ordered, available, linked);
    var t' := MoveSome(t, ordered, available, linked, target, name).value;
    MovedIsConsistent(t, t', business, source, target, FutureBookings(t, business, source, now), name, available,
                      linked);
    MoveIsOutcome(t, t', assignments, business, source, target, name, now, available, linked);
  }

  class Calendar {
    var appointments: map<int, Appointment>
    var windows: map<int, Window>
    var reservations: map<int, Reservation>
    var assignments: set<Assignment>

    ghost function Content(): Tables
      reads this
    {
      Tables(appointments, windows, reservations)
    }

    ghost predicate Valid()
      reads this
    {
      Consistent(Content())
    }

    constructor ()
      ensures Valid()
    {
      appointments, windows, reservations, assignments := map[], map[], map[], {};
    }

    /** One booking starts before the other, or at the same time and has the smaller id. */
    ghost predicate EarlierStart(a: int, b: int)
      reads this
    {
      a in appointments && b in appointments ==>
        appointments[a].startAt < appointments[b].startAt
        || (appointments[a].startAt == appointments[b].startAt && a < b)
    }

    /** The bookings to move, ordered by start and id. */
    method SelectFuture(business: int, source: int, now: int) returns (ordered: seq<int>)
      ensures forall a :: a in ordered <==> a in FutureBookings(Content(), business, source, now)
      ensures forall a :: a in ordered <==> DueToMove(Content(), business, source, now, a)
      ensures forall i, j :: 0 <= i < j < |ordered| ==> ordered[i] != ordered[j] && EarlierStart(ordered[i], ordered[j])
      ensures |ordered| == |FutureBookings(Content(), business, source, now)|
    {
      var found := set a | a in appointments && appointments[a].business == business && appointments[a].staff == source
                           && appointments[a].startAt >= now && OccupiesSchedule(appointments[a].status);
      var ids := ToList(found);
      var rows := appointments;
      var order := (a, b) => ByStart(rows, a, b);
      ordered := Sort(order, ids);
      SortPermutes(order, ids);
      ByStartIsOrder(rows);
      SortOrders(order, ids);
      assert forall i, j :: 0 <= i < j < |ordered| ==> order(ordered[i], ordered[j]);
      assert found == FutureBookings(Content(), business, source, now);
      ListedOnce(ordered, found);
      FutureIsDue(Content(), business, source, now);
    }

    /** Moves every future occupying booking of `source` onto the target's open window of
        exactly its interval, reopens the windows it leaves, and takes the reservation along.
        Either precondition failing changes nothing. A booking's own window always exists (a
        foreign key), so the third error of the program cannot be raised. */
    method ReassignFutureAppointments(business: int, source: int, target: int, targetName: string, now: int)
        returns (r: Result<nat, ReassignError>)
      requires Valid()
      modifies this`appointments, this`windows, this`reservations
      ensures BookingsConsistent(Content()) && BookingsDisjoint(Content())
      ensures r.Err? || OneRowPerHold(old(Content()), business,
                                      FutureBookings(old(Content()), business, source, now)) ==>
                Valid()
      ensures Outcome(old(Content()), Content(), assignments, business, source, target, targetName, now, r)
      ensures Told(old(Content()), Content(), assignments, business, source, target, targetName, now, r)
    {
      hide Consistent, BookingsConsistent, BookingsDisjoint, FutureBookings, OneRowPerHold, Outcome, Told;
      ghost var before := Content();
      r := Reassign(business, source, target, targetName, now);
      OutcomeIsTold(before, Content(), assignments, business, source, target, targetName, now, r);
    }

    /** The statements of the operation. */
    method Reassign(business: int, source: int, target: int, targetName: string, now: int)
        returns (r: Result<nat, ReassignError>)
      requires Valid()
      modifies this`appointments, this`windows, this`reservations
      ensures BookingsConsistent(Content()) && BookingsDisjoint(Content())
      ensures r.Err? || OneRowPerHold(old(Content()), business,
                                      FutureBookings(old(Content()), business, source, now)) ==>
                Valid()
      ensures Outcome(old(Content()), Content(), assignments, business, source, target, targetName, now, r)
    {
      hide Consistent, BookingsConsistent, BookingsDisjoint, FutureBookings, OneRowPerHold, Plan, Moved, MovedByPlan,
        Outcome, Ready, MoveSome;
      ghost var before := Content();
      ConsistentParts(before);
      ConsistentBookingsDisjoint(before);
      var ordered := SelectFuture(business, source, now);
      if ordered == [] {
        NothingToMove(before, assignments, business, source, target, targetName, now, ordered);
        return Ok(0);
      }
      var found := FindTargets(business, source, target, targetName, now, ordered);
      if found.Err? {
        return Err(found.error);
      }
      var (available, linked) := found.value;
      ReadyMoves(before, assignments, business, source, target, targetName, now, ordered, available, linked);
      MoveAll(target, targetName, ordered, available, linked);
      return Ok(|ordered|);
    }

    /** The two checks, and the windows and reservations they find. */
    method FindTargets(business: int, source: int, target: int, ghost name: string, now: int, ordered: seq<int>)
        returns (r: Result<(map<Key, int>, map<int, int>), ReassignError>)
      requires Valid()
      requires forall a :: a in ordered <==> a in FutureBookings(Content(), business, source, now)
      requires forall i, j :: 0 <= i < j < |ordered| ==> ordered[i] != ordered[j]
      requires |ordered| == |FutureBookings(Content(), business, source, now)|
      ensures r.Err? ==>
                Outcome(Content(), Content(), assignments, business, source, target, name, now, Err(r.error))
      ensures r.Ok? ==>
                Ready(Content(), assignments, business, source, target, now, ordered, r.value.0, r.value.1)
    {
      ghost var before := Content();
      var tables := Tables(appointments, windows, reservations);
      var serviceIds := ServicesOf(tables, ordered);
      if ServedBy(assignments, business, target, serviceIds) != serviceIds {
        UnservedIsOutcome(before, assignments, business, source, target, name, now, ordered);
        return Err(TargetMissingServiceAssignments);
      }
      var available := OpenWindows(tables, business, target, StartsOf(tables, ordered));
      if a :| a in ordered && !Planned(tables, available, a) {
        UnplacedIsOutcome(before, assignments, business, source, target, name, now, ordered, a);
        return Err(TargetMissingExactWindows);
      }
      var linked := LookUpReservations(business, ordered);
      ElementsAre(ordered, FutureBookings(before, business, source, now));
      return Ok((available, linked));
    }

    /** The reservation rows of the bookings, the last one listed for each. */
    method LookUpReservations(business: int, bookings: seq<int>) returns (linked: map<int, int>)
      ensures IsLookup(Content(), business, Elements(bookings), linked)
    {
      var found := set q | q in reservations && reservations[q].business == business
                           && reservations[q].appointment.Some? && reservations[q].appointment.value in bookings;
      var rows := ToList(found);
      ListedOnce(rows, found);
      linked := map[];
      for i := 0 to |rows|
        invariant forall a :: a in linked ==>
                    a in bookings && linked[a] in reservations && IsRowOf(reservations[linked[a]], business, a)
        invariant forall j :: 0 <= j < i ==> rows[j] in found && reservations[rows[j]].appointment.value in linked
      {
        var q := rows[i];
        assert q in found;
        linked := linked[reservations[q].appointment.value := q];
      }
      forall a, q | a in bookings && q in reservations && IsRowOf(reservations[q], business, a) ensures a in linked {
        assert q in rows;
      }
    }

    /** The loop over the locked bookings. */
    method MoveAll(target: int, targetName: string, ordered: seq<int>, available: map<Key, int>, linked: map<int, int>)
      requires MoveSome(Content(), ordered, available, linked, target, targetName).Some?
      modifies this`appointments, this`windows, this`reservations
      ensures Some(Content()) == MoveSome(old(Content()), ordered, available, linked, target, targetName)
    {
      hide MoveBooking;
      ghost var before := Content();
      for i := 0 to |ordered|
        invariant Some(Content()) == MoveSome(before, ordered[..i], available, linked, target, targetName)
      {
        var a := ordered[i];
        EarlierTurnsSucceed(before, ordered, i + 1, available, linked, target, targetName);
        assert ordered[..i + 1][..i] == ordered[..i];
        MoveOne(a, available[KeyOf(appointments[a])], Linked(linked, a), target, targetName);
      }
      assert ordered[..|ordered|] == ordered;
    }

    /** The body of the loop: the old window, the new window, the booking, its reservation. */
    method MoveOne(a: int, newWindow: int, reservation: Option<int>, target: int, targetName: string)
      requires a in appointments && appointments[a].window in windows && newWindow in windows
      requires reservation.Some? ==> reservation.value in reservations
      modifies this`appointments, this`windows, this`reservations
      ensures Content() == MoveBooking(old(Content()), a, newWindow, reservation, target, targetName)
    {
      var booking := appointments[a];
      windows := windows[booking.window := windows[booking.window].(status := Open)];
      windows := windows[newWindow := windows[newWindow].(status := HeldStatus(booking.status))];
      appointments := appointments[a := booking.(staff := target, masterName := targetName, window := newWindow)];
      if reservation.Some? {
        var q := reservation.value;
        reservations := reservations[q := reservations[q].(staff := target, window := newWindow)];
      }
    }
  }
}
