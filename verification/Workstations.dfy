/** Physical workstations: the allocation query and the transactions that book, reschedule
    and move appointments concurrently under one advisory lock per local date. */
module Workstations {
  import opened Basics
  import opened TimeZones
  import opened LocalDays
  import opened Lifecycles

  datatype Station = Station(isActive: bool, isArchived: bool, sortOrder: int)

  /** `station` is None for rows older than workstations. */
  datatype Appointment = Appointment(
    station: Option<int>, service: int, startAt: int, endAt: int, status: AppointmentStatus)

  /** A transaction that holds the lock of a date. A reschedule also holds the row lock of
      the appointment it moves. */
  datatype Txn =
    | Locked(date: int, moving: Option<int>)
    | Allocated(date: int, moving: Option<int>, service: int, startAt: int, endAt: int, station: int)

  datatype State = State(
    stations: map<int, Station>,
    enabled: set<(int, int)>,
    rows: map<int, Appointment>,
    held: map<int, Txn>)

  datatype Event =
    | Lock(worker: int, date: int, moving: Option<int>)
    | Allocate(worker: int, service: int, startAt: int, endAt: int)
    | Commit(worker: int, newId: int, status: AppointmentStatus)
    | Rollback(worker: int)
    | Move(id: int, status: AppointmentStatus)
    | Delete(id: int)
    | Configure(stations: map<int, Station>, enabled: set<(int, int)>)

  // ---------------------------------------------------------------------------
  // The queries

  /** The correlated subquery: an occupying row on the station meets the interval. */
  predicate Taken(s: State, station: int, startAt: int, endAt: int, exclude: Option<int>) {
    exists id :: id in s.rows && s.rows[id].station == Some(station) && OccupiesSchedule(s.rows[id].status)
      && s.rows[id].startAt < endAt && s.rows[id].endAt > startAt && exclude != Some(id)
  }

  /** The station is in use, does the service, and no booking that takes up its time, other than
      the one excluded, meets the interval on it. */
  ghost predicate Fit(s: State, station: int, service: int, startAt: int, endAt: int, exclude: Option<int>) {
    && station in s.stations && s.stations[station].isActive && !s.stations[station].isArchived
    && (station, service) in s.enabled
    && forall id :: id in s.rows && exclude != Some(id) && s.rows[id].station == Some(station) ==>
         Vacates(s.rows[id], startAt, endAt)
  }

  /** The booking is over by then, begins after it, or takes up no time. */
  ghost predicate Vacates(x: Appointment, startAt: int, endAt: int) {
    || x.endAt <= startAt || endAt <= x.startAt
    || (x.status != PendingPayment && x.status != PendingManualConfirmation && x.status != Confirmed
        && x.status != ClientConfirmed)
  }

  predicate IsAvailable(s: State, station: int, service: int, startAt: int, endAt: int, exclude: Option<int>): (r: bool)
    ensures r <==> Fit(s, station, service, startAt, endAt, exclude)
  {
    && station in s.stations && s.stations[station].isActive && !s.stations[station].isArchived
    && (station, service) in s.enabled
    && !Taken(s, station, startAt, endAt, exclude)
  }

  predicate HasAvailable(s: State, service: int, startAt: int, endAt: int, exclude: Option<int>): (r: bool)
    ensures r <==> exists station :: Fit(s, station, service, startAt, endAt, exclude)
  {
    exists station :: station in s.stations && IsAvailable(s, station, service, startAt, endAt, exclude)
  }

  predicate StationLeq(s: State, a: int, b: int)
    requires a in s.stations && b in s.stations
  {
    s.stations[a].sortOrder < s.stations[b].sortOrder
    || (s.stations[a].sortOrder == s.stations[b].sortOrder && a <= b)
  }

  function Available(s: State, service: int, startAt: int, endAt: int, exclude: Option<int>): set<int> {
    set k | k in s.stations && IsAvailable(s, k, service, startAt, endAt, exclude)
  }

  /** The first of a set of stations by (sort order, id). */
  lemma {:induction false} FirstExists(s: State, ks: set<int>) returns (first: int)
    requires ks != {} && ks <= s.stations.Keys
    ensures first in ks && forall k :: k in ks ==> StationLeq(s, first, k)
  {
    var x := Member(ks);
    if ks == {x} {
      first := x;
    } else {
      assert ks == {x} + (ks - {x});
      var rest := FirstExists(s, ks - {x});
      first := if StationLeq(s, x, rest) then x else rest;
      forall k | k in ks ensures StationLeq(s, first, k) {
        if k != x { assert k in ks - {x}; }
      }
    }
  }

  function AllocateAvailable(s: State, service: int, startAt: int, endAt: int, exclude: Option<int>): (r: Option<int>)
    ensures r.Some? ==> IsAvailable(s, r.value, service, startAt, endAt, exclude)
    ensures r.Some? ==> forall k :: k in Available(s, service, startAt, endAt, exclude) ==> StationLeq(s, r.value, k)
    ensures r.Some? <==> HasAvailable(s, service, startAt, endAt, exclude)
    ensures r.Some? ==> Fit(s, r.value, service, startAt, endAt, exclude)
    ensures r.Some? ==> forall k :: Fit(s, k, service, startAt, endAt, exclude) && k != r.value ==>
              || s.stations[r.value].sortOrder < s.stations[k].sortOrder
              || (s.stations[r.value].sortOrder == s.stations[k].sortOrder && r.value < k)
    ensures r.None? ==> forall k :: !Fit(s, k, service, startAt, endAt, exclude)
  {
    assert forall k :: Fit(s, k, service, startAt, endAt, exclude) ==>
      k in s.stations && IsAvailable(s, k, service, startAt, endAt, exclude);
    var ks := Available(s, service, startAt, endAt, exclude);
    assert forall k :: Fit(s, k, service, startAt, endAt, exclude) ==> k in ks;
    if ks == {} then
      assert forall k :: k in s.stations && IsAvailable(s, k, service, startAt, endAt, exclude) ==> k in ks;
      None
    else
      assert exists k :: k in ks && forall j :: j in ks ==> StationLeq(s, k, j) by {
        var first := FirstExists(s, ks);
      }
      var k :| k in ks && forall j :: j in ks ==> StationLeq(s, k, j);
      Some(k)
  }

  // ---------------------------------------------------------------------------
  // Interleaved transactions

  ghost predicate DateFree(s: State, date: int) {
    forall w :: w in s.held ==> s.held[w].date != date
  }

  ghost predicate RowLocked(s: State, id: int) {
    exists w :: w in s.held && s.held[w].moving == Some(id)
  }

  /** `ensure_active_appointment`: only a confirmed booking can be rescheduled. */
  predicate Reschedulable(st: AppointmentStatus) { st == Confirmed || st == ClientConfirmed }

  predicate InitialStatus(st: AppointmentStatus) {
    st == PendingPayment || st == PendingManualConfirmation || st == Confirmed
  }

  function Inserted(rows: map<int, Appointment>, t: Txn, newId: int, status: AppointmentStatus): map<int, Appointment>
    requires t.Allocated?
  {
    var without := if t.moving.Some? && t.moving.value in rows
                   then rows[t.moving.value := rows[t.moving.value].(status := Rescheduled)] else rows;
    without[newId := Appointment(Some(t.station), t.service, t.startAt, t.endAt, status)]
  }

  ghost predicate Next(z: Zone, s: State, e: Event, s': State) {
    match e
    case Lock(worker, date, moving) =>
      && worker !in s.held && DateFree(s, date)
      && (moving.Some? ==> moving.value in s.rows && Reschedulable(s.rows[moving.value].status)
                             && !RowLocked(s, moving.value))
      && s' == s.(held := s.held[worker := Locked(date, moving)])
    case Allocate(worker, service, startAt, endAt) =>
      && worker in s.held && s.held[worker].Locked?
      && var t := s.held[worker];
         // the window booked: its own start gives the date that was locked
         && startAt < endAt && LocalDate(z, startAt) == LocalDate(z, endAt) == t.date
         && var station := AllocateAvailable(s, service, startAt, endAt, t.moving);
            && station.Some?
            && s' == s.(held := s.held[worker := Allocated(t.date, t.moving, service, startAt, endAt, station.value)])
    case Commit(worker, newId, status) =>
      && worker in s.held && s.held[worker].Allocated? && newId !in s.rows && InitialStatus(status)
      && s' == s.(rows := Inserted(s.rows, s.held[worker], newId, status), held := s.held - {worker})
    case Rollback(worker) =>
      s' == s.(held := s.held - {worker})
    case Move(id, status) =>
      && id in s.rows && !RowLocked(s, id) && AppointmentMove(s.rows[id].status, status)
      && s' == s.(rows := s.rows[id := s.rows[id].(status := status)])
    case Delete(id) =>
      && id in s.rows && !RowLocked(s, id)
      && s' == s.(rows := s.rows - {id})
    case Configure(stations, enabled) =>
      && s.stations.Keys <= stations.Keys
      && s' == s.(stations := stations, enabled := enabled)
  }

  ghost predicate Occupies(rows: map<int, Appointment>, id: int, station: int) {
    id in rows && rows[id].station == Some(station) && OccupiesSchedule(rows[id].status)
  }

  /** The exclusion constraint: no station is occupied twice at one time. */
  ghost predicate NoDoubleUse(rows: map<int, Appointment>) {
    forall a, b, k :: a != b && Occupies(rows, a, k) && Occupies(rows, b, k) ==>
      rows[a].endAt <= rows[b].startAt || rows[b].endAt <= rows[a].startAt
  }

  ghost predicate Placed(z: Zone, s: State) {
    forall id, k :: Occupies(s.rows, id, k) ==>
      && k in s.stations
      && s.rows[id].startAt < s.rows[id].endAt
      && LocalDate(z, s.rows[id].startAt) == LocalDate(z, s.rows[id].endAt)
  }

  /** What an allocation found stays true while its transaction holds its locks. */
  ghost predicate StillFree(z: Zone, s: State, t: Txn) {
    && (t.moving.Some? ==> t.moving.value in s.rows && Reschedulable(s.rows[t.moving.value].status))
    && (t.Allocated? ==>
          && t.station in s.stations && t.startAt < t.endAt
          && LocalDate(z, t.startAt) == LocalDate(z, t.endAt) == t.date
          && forall id :: Occupies(s.rows, id, t.station) && t.moving != Some(id) ==>
               s.rows[id].endAt <= t.startAt || t.endAt <= s.rows[id].startAt)
  }

  ghost predicate Exclusive(s: State) {
    forall v, w :: v in s.held && w in s.held && v != w ==>
      && s.held[v].date != s.held[w].date
      && (s.held[v].moving.Some? ==> s.held[v].moving != s.held[w].moving)
  }

  ghost predicate Inv(z: Zone, s: State) {
    && NoDoubleUse(s.rows) && Placed(z, s) && Exclusive(s)
    && forall w :: w in s.held ==> StillFree(z, s, s.held[w])
  }

  /** The database constraint's predicate is closed: a row outside it cannot move inside. */
  lemma MoveNeverOccupies(a: AppointmentStatus, b: AppointmentStatus)
    requires AppointmentMove(a, b) && OccupiesSchedule(b)
    ensures OccupiesSchedule(a)
  {
    if a != b { AppointmentCameFrom(a, b); }
  }

  /** Rows that only leave the schedule keep the invariant. */
  lemma ShrinkKeepsInv(z: Zone, s: State, s': State)
    requires Inv(z, s) && s'.held == s.held && s'.stations == s.stations
    requires forall id, k :: Occupies(s'.rows, id, k) ==>
               Occupies(s.rows, id, k) && s'.rows[id].startAt == s.rows[id].startAt
               && s'.rows[id].endAt == s.rows[id].endAt
    requires forall id :: id in s.rows && RowLocked(s, id) ==> id in s'.rows && s'.rows[id] == s.rows[id]
    ensures Inv(z, s')
  {
    forall w | w in s'.held ensures StillFree(z, s', s'.held[w]) {
      assert StillFree(z, s, s.held[w]);
      if s.held[w].moving.Some? { assert RowLocked(s, s.held[w].moving.value); }
    }
  }

  lemma CommitKeepsInv(z: Zone, s: State, worker: int, newId: int, status: AppointmentStatus)
    requires DateMonotone(z) && Inv(z, s)
    requires worker in s.held && s.held[worker].Allocated? && newId !in s.rows && InitialStatus(status)
    ensures Inv(z, s.(rows := Inserted(s.rows, s.held[worker], newId, status), held := s.held - {worker}))
  {
    var t := s.held[worker];
    var rows' := Inserted(s.rows, t, newId, status);
    var s' := s.(rows := rows', held := s.held - {worker});
    assert StillFree(z, s, t);
    forall id, k | Occupies(rows', id, k)
      ensures if id == newId then k == t.station
              else Occupies(s.rows, id, k) && t.moving != Some(id) && rows'[id] == s.rows[id]
    {
    }
    assert NoDoubleUse(rows');
    assert Placed(z, s');
    forall w | w in s'.held ensures StillFree(z, s', s'.held[w]) {
      CommitKeepsOthers(z, s, worker, newId, status, w);
    }
  }

  /** Another transaction's allocation survives a commit because it holds another date. */
  lemma CommitKeepsOthers(z: Zone, s: State, worker: int, newId: int, status: AppointmentStatus, w: int)
    requires DateMonotone(z) && Inv(z, s)
    requires worker in s.held && s.held[worker].Allocated? && newId !in s.rows && InitialStatus(status)
    requires w in s.held && w != worker
    ensures StillFree(z, s.(rows := Inserted(s.rows, s.held[worker], newId, status), held := s.held - {worker}),
                      s.held[w])
  {
    var t, o := s.held[worker], s.held[w];
    var rows' := Inserted(s.rows, t, newId, status);
    assert StillFree(z, s, t) && StillFree(z, s, o);
    if o.Allocated? {
      forall id | Occupies(rows', id, o.station) && o.moving != Some(id)
        ensures rows'[id].endAt <= o.startAt || o.endAt <= rows'[id].startAt
      {
        if id == newId {
          DatesApart(z, t.startAt, t.endAt, o.startAt, o.endAt);
        } else {
          assert Occupies(s.rows, id, o.station);
        }
      }
    }
  }

  lemma StepKeepsInv(z: Zone, s: State, e: Event, s': State)
    requires DateMonotone(z) && Inv(z, s) && Next(z, s, e, s')
    ensures Inv(z, s')
  {
    match e
    case Lock(worker, date, moving) =>
    case Allocate(worker, service, startAt, endAt) =>
      AllocateKeepsInv(z, s, worker, service, startAt, endAt, s');
    case Commit(worker, newId, status) =>
      CommitKeepsInv(z, s, worker, newId, status);
    case Rollback(worker) =>
    case Move(id, status) =>
      if OccupiesSchedule(status) { MoveNeverOccupies(s.rows[id].status, status); }
      ShrinkKeepsInv(z, s, s');
    case Delete(id) =>
      ShrinkKeepsInv(z, s, s');
    case Configure(stations, enabled) =>
      forall w | w in s'.held ensures StillFree(z, s', s'.held[w]) {
        assert StillFree(z, s, s.held[w]);
      }
  }

  lemma AllocateKeepsInv(z: Zone, s: State, worker: int, service: int, startAt: int, endAt: int, s': State)
    requires DateMonotone(z) && Inv(z, s) && Next(z, s, Allocate(worker, service, startAt, endAt), s')
    ensures Inv(z, s')
  {
    var t := s'.held[worker];
    assert StillFree(z, s, s.held[worker]);
    assert !Taken(s, t.station, startAt, endAt, t.moving);
    assert StillFree(z, s', t);
    forall w | w in s'.held ensures StillFree(z, s', s'.held[w]) {
      if w != worker { assert StillFree(z, s, s.held[w]); }
    }
  }

  ghost predicate Run(z: Zone, states: seq<State>, events: seq<Event>) {
    && |states| == |events| + 1
    && states[0].rows == map[] && states[0].held == map[]
    && forall i :: 0 <= i < |events| ==> Next(z, states[i], events[i], states[i + 1])
  }

  /** In every interleaving of bookings and reschedules that hold the date lock from the
      allocation to the commit, with any allowed status moves, deletions and configuration
      changes in between, no workstation is ever occupied twice at one time. */
  lemma {:induction false} EveryRunIsExclusive(z: Zone, states: seq<State>, events: seq<Event>, i: nat)
    requires DateMonotone(z) && Run(z, states, events) && i < |states|
    ensures Inv(z, states[i]) && NoDoubleUse(states[i].rows)
  {
    if i > 0 {
      EveryRunIsExclusive(z, states, events, i - 1);
      StepKeepsInv(z, states[i - 1], events[i - 1], states[i - 1 + 1]);
    }
  }

  /** At some earlier moment the station fitted the service and the interval. */
  ghost predicate FittedBefore(states: seq<State>, i: nat, station: int, service: int, startAt: int, endAt: int)
    requires i < |states|
  {
    exists j: nat, exclude :: j < i && Fit(states[j], station, service, startAt, endAt, exclude)
  }

  /** No run ever allocates or books a station that was not in use, did not do the service or was
      not free at that moment. */
  lemma {:induction false} EveryAllocationFitted(z: Zone, states: seq<State>, events: seq<Event>, i: nat)
    requires Run(z, states, events) && i < |states|
    ensures forall w :: w in states[i].held && states[i].held[w].Allocated? ==>
              var t := states[i].held[w]; FittedBefore(states, i, t.station, t.service, t.startAt, t.endAt)
    ensures forall id :: id in states[i].rows ==>
              var x := states[i].rows[id];
              x.station.Some? && FittedBefore(states, i, x.station.value, x.service, x.startAt, x.endAt)
  {
    hide Fit, AllocateAvailable;
    if i > 0 {
      EveryAllocationFitted(z, states, events, i - 1);
      var s, e, s' := states[i - 1], events[i - 1], states[i - 1 + 1];
      assert Next(z, s, e, s');
      forall w | w in s'.held && s'.held[w].Allocated?
        ensures var t := s'.held[w]; FittedBefore(states, i, t.station, t.service, t.startAt, t.endAt)
      {
        var t := s'.held[w];
        if w in s.held && s.held[w] == t {
          assert FittedBefore(states, i - 1, t.station, t.service, t.startAt, t.endAt);
        } else {
          assert Fit(states[i - 1], t.station, t.service, t.startAt, t.endAt, t.moving);
        }
      }
      forall id | id in s'.rows
        ensures var x := s'.rows[id];
                x.station.Some? && FittedBefore(states, i, x.station.value, x.service, x.startAt, x.endAt)
      {
        var x := s'.rows[id];
        if id in s.rows {
          assert x == s.rows[id].(status := x.status);
          assert FittedBefore(states, i - 1, x.station.value, x.service, x.startAt, x.endAt);
        } else {
          assert FittedBefore(states, i - 1, x.station.value, x.service, x.startAt, x.endAt);
        }
      }
    }
  }

  /** The rows that occupy some workstation at one instant. */
  function InUse(rows: map<int, Appointment>, u: int): set<int> {
    set id | id in rows && rows[id].station.Some? && OccupiesSchedule(rows[id].status)
             && rows[id].startAt <= u < rows[id].endAt
  }

  lemma {:induction false} InjectionBounds(ids: set<int>, rows: map<int, Appointment>, stations: set<int>)
    requires forall id :: id in ids ==> id in rows && rows[id].station.Some? && rows[id].station.value in stations
    requires forall a, b :: a in ids && b in ids && a != b ==> rows[a].station != rows[b].station
    ensures |ids| <= |stations|
    decreases ids
  {
    if ids != {} {
      var id := Member(ids);
      InjectionBounds(ids - {id}, rows, stations - {rows[id].station.value});
    }
  }

  /** At no instant of any run are there more appointments on workstations than there are
      workstations. */
  lemma NeverMoreThanWorkstations(z: Zone, states: seq<State>, events: seq<Event>, i: nat, u: int)
    requires DateMonotone(z) && Run(z, states, events) && i < |states|
    ensures |InUse(states[i].rows, u)| <= |states[i].stations|
  {
    EveryRunIsExclusive(z, states, events, i);
    var s := states[i];
    var ids := InUse(s.rows, u);
    forall id | id in ids ensures s.rows[id].station.value in s.stations {
      assert Occupies(s.rows, id, s.rows[id].station.value);
    }
    forall a, b | a in ids && b in ids && a != b ensures s.rows[a].station != s.rows[b].station {
      if s.rows[a].station == s.rows[b].station {
        assert Occupies(s.rows, a, s.rows[a].station.value) && Occupies(s.rows, b, s.rows[a].station.value);
      }
    }
    InjectionBounds(ids, s.rows, s.stations.Keys);
  }

  /** A rescheduled booking and its replacement trade places in one commit: the old row
      leaves the schedule exactly when the new one enters it, and no other row changes. */
  lemma RescheduleIsAtomic(z: Zone, s: State, worker: int, newId: int, s': State)
    requires Inv(z, s) && Next(z, s, Commit(worker, newId, Confirmed), s')
    requires s.held[worker].moving.Some?
    ensures var prior := s.held[worker].moving.value;
            && prior in s.rows && OccupiesSchedule(s.rows[prior].status)
            && AppointmentMove(s.rows[prior].status, Rescheduled)
            && s'.rows.Keys == s.rows.Keys + {newId}
            && !OccupiesSchedule(s'.rows[prior].status) && OccupiesSchedule(s'.rows[newId].status)
            && forall id :: id in s.rows && id != prior ==> s'.rows[id] == s.rows[id]
  {
    assert StillFree(z, s, s.held[worker]);
  }
}
