/** Holds on windows: creating them under a window lock, moving them along their lifecycle, and
    workers that expire them, all in concurrent transactions. */
module Reservations {
  import opened Basics
  import opened Lifecycles

  datatype Hold = Hold(window: int, status: ReservationStatus, expiresAt: int)

  predicate Live(x: Hold) { LiveHold(x.status) }

  /** How many real status changes are still possible. */
  function Rank(s: ReservationStatus): nat {
    match s
    case Active => 2
    case AwaitingReview => 1
    case _ => 0
  }

  /** The lifecycle only descends. */
  lemma MovesDescend(current: ReservationStatus, target: ReservationStatus)
    ensures ReservationMove(current, target) ==> current == target || Rank(target) < Rank(current)
    ensures ReservationMove(current, target) && LiveHold(target) ==> LiveHold(current)
  {
  }

  /** A transaction: the rows and windows it has locked, and what it has written so far. */
  datatype Txn = Txn(
    lockedHolds: set<int>, lockedWindows: set<int>, holds: map<int, Hold>, windows: map<int, WindowStatus>)

  /** Committed rows, and the open transactions by worker. */
  datatype State = State(holds: map<int, Hold>, windows: map<int, WindowStatus>, open: map<int, Txn>)

  datatype Event =
    | Begin(worker: int)
    | LockWindow(worker: int, window: int)
    | LockHold(worker: int, id: int)
    | ClaimExpired(worker: int, now: int, limit: nat, ids: seq<int>)
    | Create(worker: int, id: int, window: int, expiresAt: int)
    | Submit(worker: int, id: int, now: int)
    | Consume(worker: int, id: int)
    | Expire(worker: int, id: int, now: int)
    | CancelHold(worker: int, id: int)
    | Relocate(worker: int, id: int, window: int)
    | SetWindow(worker: int, window: int, status: WindowStatus)
    | Commit(worker: int)
    | Rollback(worker: int)

  /** What a transaction sees: committed rows, and its own writes over them. */
  function Seen(s: State, w: int): map<int, Hold>
    requires w in s.open
  {
    s.holds + s.open[w].holds
  }

  function SeenWindows(s: State, w: int): map<int, WindowStatus>
    requires w in s.open
  {
    s.windows + s.open[w].windows
  }

  predicate HoldFree(s: State, w: int, id: int) {
    forall v :: v in s.open && v != w ==> id !in s.open[v].lockedHolds
  }

  predicate WindowFree(s: State, w: int, window: int) {
    forall v :: v in s.open && v != w ==> window !in s.open[v].lockedWindows
  }

  predicate FreshId(s: State, id: int) {
    id !in s.holds && forall v :: v in s.open ==> id !in s.open[v].holds
  }

  predicate ByExpiry(holds: map<int, Hold>, a: int, b: int) {
    a in holds && b in holds ==>
      holds[a].expiresAt < holds[b].expiresAt || (holds[a].expiresAt == holds[b].expiresAt && a <= b)
  }

  predicate Expired(holds: map<int, Hold>, id: int, now: int) {
    id in holds && holds[id].status == Active && holds[id].expiresAt <= now
  }

  /** ORDER BY expires_at, id LIMIT … FOR UPDATE SKIP LOCKED. */
  ghost predicate IsClaim(s: State, w: int, now: int, limit: nat, ids: seq<int>) {
    && |ids| <= limit
    && (forall i :: 0 <= i < |ids| ==> Expired(s.holds, ids[i], now) && HoldFree(s, w, ids[i]))
    && (forall i, j :: 0 <= i < j < |ids| ==> ids[i] != ids[j] && ByExpiry(s.holds, ids[i], ids[j]))
    && (forall id :: Expired(s.holds, id, now) && HoldFree(s, w, id) && id !in ids ==>
          |ids| == limit && forall i :: 0 <= i < |ids| ==> ByExpiry(s.holds, ids[i], id))
  }

  /** The transaction has the row locked and moves it to the status. */
  ghost predicate Moves(s: State, w: int, id: int, target: ReservationStatus, s': State) {
    && w in s.open && (id in s.open[w].lockedHolds || id in s.open[w].holds) && id in Seen(s, w)
    && ReservationMove(Seen(s, w)[id].status, target)
    && s' == s.(open := s.open[w := s.open[w].(holds := s.open[w].holds[id := Seen(s, w)[id].(status := target)])])
  }

  /** The transaction has the window locked and sees it open, with no live hold on it. */
  ghost predicate IsVacant(s: State, w: int, window: int)
    requires w in s.open
  {
    && window in s.open[w].lockedWindows && window in SeenWindows(s, w) && SeenWindows(s, w)[window] == Open
    && forall h :: h in Seen(s, w) && Live(Seen(s, w)[h]) ==> Seen(s, w)[h].window != window
  }

  ghost predicate Next(s: State, e: Event, s': State) {
    match e
    case Begin(w) =>
      w !in s.open && s' == s.(open := s.open[w := Txn({}, {}, map[], map[])])
    case LockWindow(w, window) =>
      && w in s.open && window in s.windows && WindowFree(s, w, window)
      && s' == s.(open := s.open[w := s.open[w].(lockedWindows := s.open[w].lockedWindows + {window})])
    case LockHold(w, id) =>
      && w in s.open && id in s.holds && HoldFree(s, w, id)
      && s' == s.(open := s.open[w := s.open[w].(lockedHolds := s.open[w].lockedHolds + {id})])
    case ClaimExpired(w, now, limit, ids) =>
      && w in s.open && s.open[w] == Txn({}, {}, map[], map[]) && IsClaim(s, w, now, limit, ids)
      && s' == s.(open := s.open[w := s.open[w].(lockedHolds := set id | id in ids)])
    case Create(w, id, window, expiresAt) =>
      && w in s.open && FreshId(s, id) && IsVacant(s, w, window)
      && s' == s.(open := s.open[w := s.open[w].(holds := s.open[w].holds[id := Hold(window, Active, expiresAt)],
                                                windows := s.open[w].windows[window := Reserved])])
    case Submit(w, id, now) =>
      && Moves(s, w, id, AwaitingReview, s')
      && Seen(s, w)[id].status == Active && now < Seen(s, w)[id].expiresAt
    case Consume(w, id) =>
      Moves(s, w, id, Consumed, s')
    case Expire(w, id, now) =>
      Moves(s, w, id, ExpiredHold, s') && Expired(Seen(s, w), id, now)
    case CancelHold(w, id) =>
      Moves(s, w, id, Cancelled, s')
    case Relocate(w, id, window) =>
      && w in s.open && id in s.open[w].lockedHolds && id in Seen(s, w) && IsVacant(s, w, window)
      && s' == s.(open := s.open[w := s.open[w].(holds := s.open[w].holds[id := Seen(s, w)[id].(window := window)])])
    case SetWindow(w, window, status) =>
      && w in s.open && window in s.open[w].lockedWindows
      && s' == s.(open := s.open[w := s.open[w].(windows := s.open[w].windows[window := status])])
    case Commit(w) =>
      && w in s.open
      && s' == State(Seen(s, w), SeenWindows(s, w), s.open - {w})
    case Rollback(w) =>
      w in s.open && s' == s.(open := s.open - {w})
  }

  // ---------------------------------------------------------------------------
  // The invariant

  /** The unique index `uq_booking_reservations_active_window`. */
  ghost predicate OneLiveHold(holds: map<int, Hold>) {
    forall a, b :: a in holds && b in holds && a != b && Live(holds[a]) && Live(holds[b]) ==>
      holds[a].window != holds[b].window
  }

  /** What a transaction wrote: rows it has locked, moved down their lifecycle and left on their
      windows or put on windows it has locked, or new rows on windows it has locked. */
  ghost predicate WritesAreLocked(s: State, w: int)
    requires w in s.open
  {
    forall id :: id in s.open[w].holds ==>
      var x := s.open[w].holds[id];
      if id in s.holds
      then id in s.open[w].lockedHolds && Descends(s.holds[id], x)
           && (x.window == s.holds[id].window || x.window in s.open[w].lockedWindows)
      else x.window in s.open[w].lockedWindows
  }

  predicate Descends(x: Hold, y: Hold) {
    y.expiresAt == x.expiresAt && (y.status == x.status || Rank(y.status) < Rank(x.status))
  }

  ghost predicate LocksAreExclusive(s: State) {
    forall v, w :: v in s.open && w in s.open && v != w ==>
      && s.open[v].lockedHolds !! s.open[w].lockedHolds
      && s.open[v].lockedWindows !! s.open[w].lockedWindows
      && forall id :: id in s.open[v].holds && id in s.open[w].holds ==> id in s.holds
  }

  ghost predicate Inv(s: State) {
    && OneLiveHold(s.holds)
    && LocksAreExclusive(s)
    && (forall w :: w in s.open ==>
          WritesAreLocked(s, w) && OneLiveHold(Seen(s, w)) && s.open[w].lockedHolds <= s.holds.Keys)
  }

  /** The other transactions hold none of these locks and wrote none of these rows. */
  ghost predicate Apart(s: State, w: int, t: Txn) {
    forall v :: v in s.open && v != w ==>
      && s.open[v].lockedHolds !! t.lockedHolds && s.open[v].lockedWindows !! t.lockedWindows
      && forall id :: id in s.open[v].holds && id in t.holds ==> id in s.holds
  }

  /** A step inside one transaction keeps the invariant if that transaction stays apart. */
  lemma LocalStepKeepsInv(s: State, w: int, t: Txn, s': State)
    requires Inv(s) && s' == s.(open := s.open[w := t]) && Apart(s, w, t)
    requires WritesAreLocked(s', w) && OneLiveHold(Seen(s', w)) && t.lockedHolds <= s.holds.Keys
    ensures Inv(s')
  {
    hide OneLiveHold;
    forall v | v in s'.open ensures WritesAreLocked(s', v) && OneLiveHold(Seen(s', v)) {
      if v != w {
        assert WritesAreLocked(s, v) && Seen(s', v) == Seen(s, v);
      }
    }
  }

  lemma OwnLocksAreApart(s: State, w: int)
    requires Inv(s) && w in s.open
    ensures Apart(s, w, s.open[w])
  {
  }

  lemma MoveKeepsInv(s: State, w: int, id: int, target: ReservationStatus, s': State)
    requires Inv(s) && Moves(s, w, id, target, s')
    ensures Inv(s')
  {
    var x := Seen(s, w)[id];
    MovesDescend(x.status, target);
    OwnLocksAreApart(s, w);
    assert WritesAreLocked(s, w) && OneLiveHold(Seen(s, w));
    assert Seen(s', w) == Seen(s, w)[id := x.(status := target)];
    assert id in s.holds || id in s.open[w].holds;
    MovedIsApart(s, w, id, s'.open[w]);
    LocalStepKeepsInv(s, w, s'.open[w], s');
  }

  lemma MovedIsApart(s: State, w: int, id: int, t: Txn)
    requires Inv(s) && w in s.open && (id in s.holds || id in s.open[w].holds)
    requires t.lockedHolds == s.open[w].lockedHolds && t.lockedWindows == s.open[w].lockedWindows
    requires forall h :: h in t.holds ==> h in s.open[w].holds || h == id
    ensures Apart(s, w, t)
  {
    OwnLocksAreApart(s, w);
  }

  lemma CreateKeepsInv(s: State, w: int, id: int, window: int, expiresAt: int, s': State)
    requires Inv(s) && Next(s, Create(w, id, window, expiresAt), s')
    ensures Inv(s')
  {
    var t := s'.open[w];
    assert WritesAreLocked(s, w) && OneLiveHold(Seen(s, w));
    assert Seen(s', w) == Seen(s, w)[id := Hold(window, Active, expiresAt)];
    assert OneLiveHold(Seen(s', w)) && WritesAreLocked(s', w);
    CreatedIsApart(s, w, id, t);
    hide OneLiveHold, WritesAreLocked, Inv;
    InvParts(s, w);
    LocalStepKeepsInv(s, w, t, s');
  }

  lemma RelocateKeepsInv(s: State, w: int, id: int, window: int, s': State)
    requires Inv(s) && Next(s, Relocate(w, id, window), s')
    ensures Inv(s')
  {
    var t := s'.open[w];
    InvParts(s, w);
    assert WritesAreLocked(s, w) && OneLiveHold(Seen(s, w));
    assert Seen(s', w) == Seen(s, w)[id := Seen(s, w)[id].(window := window)];
    assert OneLiveHold(Seen(s', w)) && WritesAreLocked(s', w);
    MovedIsApart(s, w, id, t);
    hide OneLiveHold, WritesAreLocked, Inv;
    LocalStepKeepsInv(s, w, t, s');
  }

  lemma InvParts(s: State, w: int)
    requires Inv(s) && w in s.open
    ensures s.open[w].lockedHolds <= s.holds.Keys
  {
  }

  lemma CreatedIsApart(s: State, w: int, id: int, t: Txn)
    requires Inv(s) && w in s.open && FreshId(s, id)
    requires t.lockedHolds == s.open[w].lockedHolds && t.lockedWindows == s.open[w].lockedWindows
    requires forall h :: h in t.holds ==> h in s.open[w].holds || h == id
    ensures Apart(s, w, t)
  {
    OwnLocksAreApart(s, w);
  }

  /** A row that the other transaction sees live after the commit was live for both before. */
  lemma CommitSeenByOther(s: State, w: int, v: int, s': State, id: int)
    requires Inv(s) && w in s.open && v in s.open && v != w && s' == State(Seen(s, w), SeenWindows(s, w), s.open - {w})
    requires id in Seen(s', v)
    ensures id in s.open[v].holds && id in s.holds ==> id !in s.open[w].holds && Seen(s', v)[id] == Seen(s, v)[id]
    ensures id in s.open[v].holds && id !in s.holds ==>
              id !in s.open[w].holds && Seen(s', v)[id] == Seen(s, v)[id]
              && Seen(s', v)[id].window in s.open[v].lockedWindows
    ensures id !in s.open[v].holds && id in s.holds ==>
              Seen(s', v)[id] == Seen(s, w)[id] && Seen(s, v)[id] == s.holds[id]
              && (Live(Seen(s', v)[id]) ==> Live(Seen(s, v)[id]))
              && (Seen(s', v)[id].window == Seen(s, v)[id].window || Seen(s', v)[id].window in s.open[w].lockedWindows)
    ensures id !in s.open[v].holds && id !in s.holds ==>
              Seen(s', v)[id] == Seen(s, w)[id] && Seen(s', v)[id].window in s.open[w].lockedWindows
  {
    assert WritesAreLocked(s, w) && WritesAreLocked(s, v);
  }

  lemma CommitKeepsOthers(s: State, w: int, v: int, s': State)
    requires Inv(s) && w in s.open && v in s.open && v != w && s' == State(Seen(s, w), SeenWindows(s, w), s.open - {w})
    ensures WritesAreLocked(s', v) && OneLiveHold(Seen(s', v))
  {
    assert WritesAreLocked(s, w) && WritesAreLocked(s, v) && OneLiveHold(Seen(s, v)) && OneLiveHold(Seen(s, w));
    forall a, b | a in Seen(s', v) && b in Seen(s', v) && a != b && Live(Seen(s', v)[a]) && Live(Seen(s', v)[b])
      ensures Seen(s', v)[a].window != Seen(s', v)[b].window
    {
      CommitSeenByOther(s, w, v, s', a);
      CommitSeenByOther(s, w, v, s', b);
    }
  }

  lemma CommitKeepsInv(s: State, w: int, s': State)
    requires Inv(s) && Next(s, Commit(w), s')
    ensures Inv(s')
  {
    assert WritesAreLocked(s, w);
    forall v | v in s'.open ensures WritesAreLocked(s', v) && OneLiveHold(Seen(s', v)) {
      CommitKeepsOthers(s, w, v, s');
    }
  }

  /** Taking locks and changing windows writes no hold. */
  lemma LockKeepsInv(s: State, w: int, t: Txn, s': State)
    requires Inv(s) && w in s.open && s' == s.(open := s.open[w := t]) && Apart(s, w, t)
    requires t.holds == s.open[w].holds && t.lockedHolds <= s.holds.Keys
    requires s.open[w].lockedHolds <= t.lockedHolds && s.open[w].lockedWindows <= t.lockedWindows
    ensures Inv(s')
  {
    assert Seen(s', w) == Seen(s, w) && WritesAreLocked(s, w);
    assert WritesAreLocked(s', w);
    LocalStepKeepsInv(s, w, t, s');
  }

  lemma LocksAreApart(s: State, w: int, t: Txn)
    requires Inv(s) && w in s.open && t.holds == s.open[w].holds
    requires forall id :: id in t.lockedHolds && id !in s.open[w].lockedHolds ==> HoldFree(s, w, id)
    requires forall window :: window in t.lockedWindows && window !in s.open[w].lockedWindows ==>
               WindowFree(s, w, window)
    ensures Apart(s, w, t)
  {
    OwnLocksAreApart(s, w);
    forall v | v in s.open && v != w
      ensures s.open[v].lockedHolds !! t.lockedHolds && s.open[v].lockedWindows !! t.lockedWindows
    {
      assert forall id :: id in t.lockedHolds ==> id !in s.open[v].lockedHolds;
      assert forall window :: window in t.lockedWindows ==> window !in s.open[v].lockedWindows;
    }
  }

  lemma BeginKeepsInv(s: State, w: int, s': State)
    requires Inv(s) && Next(s, Begin(w), s')
    ensures Inv(s')
  {
    assert Seen(s', w) == s.holds;
    LocalStepKeepsInv(s, w, Txn({}, {}, map[], map[]), s');
  }

  lemma RollbackKeepsInv(s: State, w: int, s': State)
    requires Inv(s) && Next(s, Rollback(w), s')
    ensures Inv(s')
  {
    forall v | v in s'.open ensures WritesAreLocked(s', v) && OneLiveHold(Seen(s', v)) {
      assert WritesAreLocked(s, v) && Seen(s', v) == Seen(s, v);
    }
  }

  lemma ClaimKeepsInv(s: State, w: int, now: int, limit: nat, ids: seq<int>, s': State)
    requires Inv(s) && Next(s, ClaimExpired(w, now, limit, ids), s')
    ensures Inv(s')
  {
    LocksAreApart(s, w, s'.open[w]);
    LockKeepsInv(s, w, s'.open[w], s');
  }

  lemma OneLockKeepsInv(s: State, e: Event, s': State)
    requires Inv(s) && Next(s, e, s') && (e.LockWindow? || e.LockHold? || e.SetWindow?)
    ensures Inv(s')
  {
    LocksAreApart(s, e.worker, s'.open[e.worker]);
    InvParts(s, e.worker);
    LockKeepsInv(s, e.worker, s'.open[e.worker], s');
  }

  lemma StepKeepsInv(s: State, e: Event, s': State)
    requires Inv(s) && Next(s, e, s')
    ensures Inv(s')
  {
    hide Inv, WritesAreLocked, OneLiveHold, LocksAreExclusive;
    match e
    case Create(w, id, window, expiresAt) => CreateKeepsInv(s, w, id, window, expiresAt, s');
    case Submit(w, id, now) => MoveKeepsInv(s, w, id, AwaitingReview, s');
    case Consume(w, id) => MoveKeepsInv(s, w, id, Consumed, s');
    case Expire(w, id, now) => MoveKeepsInv(s, w, id, ExpiredHold, s');
    case CancelHold(w, id) => MoveKeepsInv(s, w, id, Cancelled, s');
    case Relocate(w, id, window) => RelocateKeepsInv(s, w, id, window, s');
    case Commit(w) => CommitKeepsInv(s, w, s');
    case Begin(w) => BeginKeepsInv(s, w, s');
    case Rollback(w) => RollbackKeepsInv(s, w, s');
    case ClaimExpired(w, now, limit, ids) => ClaimKeepsInv(s, w, now, limit, ids, s');
    case _ => OneLockKeepsInv(s, e, s');
  }

  ghost predicate Run(states: seq<State>, events: seq<Event>) {
    && |states| == |events| + 1
    && states[0].open == map[] && OneLiveHold(states[0].holds)
    && forall i :: 0 <= i < |events| ==> Next(states[i], events[i], states[i + 1])
  }

  lemma {:induction false} RunKeepsInv(states: seq<State>, events: seq<Event>, n: nat)
    requires Run(states, events) && n < |states|
    ensures Inv(states[n])
  {
    if n > 0 {
      RunKeepsInv(states, events, n - 1);
      StepKeepsInv(states[n - 1], events[n - 1], states[n - 1 + 1]);
    }
  }

  /** In every interleaving the committed rows never hold a window twice, so the unique index
      never has to reject a commit. */
  lemma EveryRunHoldsAWindowOnce(states: seq<State>, events: seq<Event>, n: nat)
    requires Run(states, events) && n < |states|
    ensures OneLiveHold(states[n].holds)
  {
    RunKeepsInv(states, events, n);
  }

  // ---------------------------------------------------------------------------
  // One hold over a run

  /** A step leaves the committed row of a hold as it is or moves it down. */
  lemma StepDescends(s: State, e: Event, s': State, id: int)
    requires Inv(s) && Next(s, e, s') && id in s.holds
    ensures id in s'.holds && Descends(s.holds[id], s'.holds[id])
  {
    if e.Commit? {
      assert WritesAreLocked(s, e.worker);
    }
  }

  function Changes(states: seq<State>, id: int, n: nat): nat
    requires n < |states|
  {
    if n == 0 then 0
    else
      Changes(states, id, n - 1)
      + if id in states[n - 1].holds && id in states[n].holds
           && states[n - 1].holds[id].status != states[n].holds[id].status
        then 1 else 0
  }

  /** A hold changes its status at most twice, however long the run; what is left of its rank
      bounds what can still happen. */
  lemma {:induction false} AtMostTwoChanges(states: seq<State>, events: seq<Event>, id: int, n: nat)
    requires Run(states, events) && n < |states|
    ensures Changes(states, id, n) <= 2
    ensures id in states[n].holds ==> Changes(states, id, n) + Rank(states[n].holds[id].status) <= 2
    ensures id !in states[n].holds ==> Changes(states, id, n) == 0
  {
    if n > 0 {
      AtMostTwoChanges(states, events, id, n - 1);
      RunKeepsInv(states, events, n - 1);
      assert Next(states[n - 1], events[n - 1], states[n - 1 + 1]);
      if id in states[n - 1].holds {
        StepDescends(states[n - 1], events[n - 1], states[n], id);
      }
    }
  }

  lemma {:induction false} RanksDescend(states: seq<State>, events: seq<Event>, id: int, i: nat, j: nat)
    requires Run(states, events) && i <= j < |states| && id in states[i].holds
    ensures id in states[j].holds && Rank(states[j].holds[id].status) <= Rank(states[i].holds[id].status)
  {
    hide Inv, Next;
    if i < j {
      RanksDescend(states, events, id, i, j - 1);
      RunKeepsInv(states, events, j - 1);
      assert Next(states[j - 1], events[j - 1], states[j - 1 + 1]);
      StepDescends(states[j - 1], events[j - 1], states[j], id);
    }
  }

  /** A hold that has reached review, or is over, is in no later batch of expired holds. */
  lemma ReviewedIsNeverClaimed(states: seq<State>, events: seq<Event>, id: int, i: nat, j: nat)
    requires Run(states, events) && i <= j < |events| && id in states[i].holds && states[i].holds[id].status != Active
    requires events[j].ClaimExpired?
    ensures id !in events[j].ids
  {
    RanksDescend(states, events, id, i, j);
    assert Next(states[j], events[j], states[j + 1]);
  }

  /** A batch holds active holds whose time is up, in the order of their expiry, and every one that
      nobody else has locked if there is room. */
  lemma BatchIsExpired(states: seq<State>, events: seq<Event>, i: nat)
    requires Run(states, events) && i < |events| && events[i].ClaimExpired?
    ensures var (s, e) := (states[i], events[i]);
            && |e.ids| <= e.limit
            && (forall id :: id in e.ids ==>
                  id in s.holds && s.holds[id].status == Active && s.holds[id].expiresAt <= e.now)
            && (forall k, m :: 0 <= k < m < |e.ids| ==>
                  && e.ids[k] in s.holds && e.ids[m] in s.holds
                  && (s.holds[e.ids[k]].expiresAt < s.holds[e.ids[m]].expiresAt
                      || (s.holds[e.ids[k]].expiresAt == s.holds[e.ids[m]].expiresAt && e.ids[k] < e.ids[m])))
            && (forall id ::
                  (id in s.holds && s.holds[id].status == Active && s.holds[id].expiresAt <= e.now
                   && id !in e.ids && HoldFree(s, e.worker, id)) ==>
                  |e.ids| == e.limit)
  {
    var s, e := states[i], events[i];
    assert Next(s, e, states[i + 1]);
    forall k | 0 <= k < |e.ids| ensures Expired(s.holds, e.ids[k], e.now) {
    }
    forall id | id in s.holds && s.holds[id].status == Active && s.holds[id].expiresAt <= e.now
      ensures Expired(s.holds, id, e.now)
    {
    }
  }

  /** Two open transactions never have the same hold locked, claimed or not. */
  lemma NobodySharesAHold(states: seq<State>, events: seq<Event>, n: nat, v: int, w: int)
    requires Run(states, events) && n < |states| && v in states[n].open && w in states[n].open && v != w
    ensures states[n].open[v].lockedHolds !! states[n].open[w].lockedHolds
  {
    RunKeepsInv(states, events, n);
  }

  /** Once an expiry is committed no later batch contains the hold. */
  lemma ExpiredOnce(states: seq<State>, events: seq<Event>, id: int, i: nat, j: nat)
    requires Run(states, events) && i < j < |events|
    requires id in states[i].holds && states[i].holds[id].status == Active
    requires id in states[i + 1].holds && states[i + 1].holds[id].status == ExpiredHold && events[j].ClaimExpired?
    ensures events[i].Commit? && id !in events[j].ids
  {
    assert Next(states[i], events[i], states[i + 1]);
    ReviewedIsNeverClaimed(states, events, id, i + 1, j);
  }
}
