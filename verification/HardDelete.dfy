/** Deleting a window or a service together with everything that depends on it. */
module HardDelete {
  import opened Basics
  import opened Lifecycles
  import opened TenantTables

  // ---------------------------------------------------------------------------
  // One statement after another

  /** The tables lost the rows of `gone` and nothing else; each depended on one of `roots`. */
  ghost predicate Removed(before: Rows, now: Rows, gone: set<Ref>, roots: set<Ref>) {
    && Intact(now)
    && gone <= before.Keys
    && now == before - gone
    && forall r :: r in gone ==> DependsOnOne(before, r, roots)
  }

  /** The same, but references that a deletion clears may also have been cleared, and windows
      may have been closed. */
  ghost predicate Reduced(before: Rows, now: Rows, gone: set<Ref>, roots: set<Ref>) {
    && Intact(now)
    && gone <= before.Keys
    && now.Keys == before.Keys - gone
    && (forall r :: r in now ==> Kept(before[r], now[r]))
    && forall r :: r in gone ==> DependsOnOne(before, r, roots)
  }

  ghost predicate NoneLeft(rows: Rows, c: Column, targets: set<Ref>) {
    forall r :: r in rows && c in rows[r].refs ==> rows[r].refs[c] !in targets
  }

  /** Every row that refers to one of `targets` by this column is gone. */
  ghost predicate Covered(before: Rows, gone: set<Ref>, c: Column, targets: set<Ref>) {
    forall r :: r in before && c in before[r].refs && before[r].refs[c] in targets ==> r in gone
  }

  ghost predicate Own(rows: Rows, business: int, targets: set<Ref>) {
    forall t :: t in targets && t in rows ==> rows[t].business == Some(business)
  }

  lemma RemovedNothing(rows: Rows, roots: set<Ref>)
    requires Intact(rows)
    ensures Removed(rows, rows, {}, roots)
  {
    assert rows - {} == rows;
  }

  lemma RemovedThen(a: Rows, b: Rows, c: Rows, g1: set<Ref>, g2: set<Ref>, roots: set<Ref>, others: set<Ref>)
    requires Removed(a, b, g1, roots) && Removed(b, c, g2, others)
    requires forall x :: x in others ==> DependsOnOne(a, x, roots)
    ensures Removed(a, c, g1 + g2, roots)
  {
    assert c == a - (g1 + g2);
    forall r | r in g2 ensures DependsOnOne(a, r, roots) {
      var x :| x in others && Depends(b, r, x);
      DependedBefore(a, b, r, x);
      var y :| y in roots && Depends(a, x, y);
      DependsOn(a, r, x, y);
    }
  }

  lemma RootsDepend(rows: Rows, roots: set<Ref>)
    ensures forall x :: x in roots ==> DependsOnOne(rows, x, roots)
  {
    forall x | x in roots ensures DependsOnOne(rows, x, roots) {
      DependsOnItself(rows, x);
    }
  }

  /** The rows of the business that refer to one of `targets` by the column. */
  function Referring(rows: Rows, business: int, c: Column, targets: set<Ref>): set<Ref> {
    set r | r in rows && r.table == TableOf(c) && (Scoped(r.table) ==> rows[r].business == Some(business))
            && c in rows[r].refs && rows[r].refs[c] in targets
  }

  /** DELETE by a list of ids. */
  function ById(rows: Rows, business: int, ids: set<Ref>): set<Ref> {
    set r | r in ids && r in rows && rows[r].business == Some(business)
  }

  /** The ids a SELECT returned, of one table and business. */
  ghost predicate Selected(rows: Rows, business: int, table: Table, ids: set<Ref>) {
    forall r :: r in ids ==> r in rows && r.table == table && rows[r].business == Some(business)
  }

  lemma ReferringDepend(rows: Rows, business: int, c: Column, targets: set<Ref>)
    requires !Cleared(c)
    ensures forall r :: r in Referring(rows, business, c, targets) ==> DependsOnOne(rows, r, targets)
    ensures Scoped(TableOf(c)) ==> Selected(rows, business, TableOf(c), Referring(rows, business, c, targets))
  {
    forall r | r in Referring(rows, business, c, targets) ensures DependsOnOne(rows, r, targets) {
      assert PartOf(rows, r, rows[r].refs[c]);
      PartDepends(rows, r, rows[r].refs[c]);
    }
  }

  lemma DeletionKeepsIntact(rows: Rows, victims: set<Ref>)
    requires Intact(rows) && Unreferenced(rows, victims)
    ensures Intact(rows - victims)
  {
  }

  lemma LeafUnreferenced(rows: Rows, victims: set<Ref>)
    requires Typed(rows) && forall v :: v in victims ==> Leaf(v.table)
    ensures Unreferenced(rows, victims)
  {
    forall r, c | r in rows && c in rows[r].refs ensures rows[r].refs[c] !in victims {
      LeafIsNoTarget(c);
      assert rows[r].refs[c].table == TargetOf(c);
    }
  }

  lemma LeafIsNoTarget(c: Column)
    ensures !Leaf(TargetOf(c))
  {
  }

  lemma CoveredLater(before: Rows, gone: set<Ref>, more: set<Ref>, c: Column, targets: set<Ref>)
    requires Covered(before, gone, c, targets) && gone <= more
    ensures Covered(before, more, c, targets)
  {
  }

  /** A further statement covers its own column and keeps what was covered. */
  lemma OneMoreStatement(before: Rows, middle: Rows, now: Rows, gone: set<Ref>, g: set<Ref>, roots: set<Ref>,
                         targets: set<Ref>, c: Column)
    requires Removed(before, middle, gone, roots) && Removed(middle, now, g, targets) && Covered(middle, g, c, targets)
    requires forall x :: x in targets ==> DependsOnOne(before, x, roots)
    ensures Removed(before, now, gone + g, roots) && Covered(before, gone + g, c, targets)
  {
    RemovedThen(before, middle, now, gone, g, roots, targets);
  }

  /** Nothing refers to the rows any more, so they may be deleted. */
  lemma CoveredAreFree(before: Rows, now: Rows, gone: set<Ref>, roots: set<Ref>, business: int, table: Table,
                       victims: set<Ref>)
    requires Removed(before, now, gone, roots) && Selected(before, business, table, victims)
    requires forall c :: TargetOf(c) == table ==> Covered(before, gone, c, victims)
    ensures Intact(now) && Unreferenced(now, ById(now, business, victims))
  {
    forall r, c | r in now && c in now[r].refs ensures now[r].refs[c] !in ById(now, business, victims) {
      assert now[r].refs[c].table == TargetOf(c);
      assert TargetOf(c) == table ==> Covered(before, gone, c, victims);
    }
  }

  /** After the dependents the rows themselves are deleted. */
  lemma ThenTheParents(before: Rows, middle: Rows, now: Rows, gone: set<Ref>, business: int, table: Table,
                       parents: set<Ref>, roots: set<Ref>)
    requires Removed(before, middle, gone, parents) && Selected(before, business, table, parents)
    requires forall p :: p in parents ==> DependsOnOne(before, p, roots)
    requires Intact(now) && now == middle - ById(middle, business, parents)
    ensures Removed(before, now, gone + parents, roots)
  {
    assert now == before - (gone + parents);
    forall r | r in gone ensures DependsOnOne(before, r, roots) {
      var p :| p in parents && Depends(before, r, p);
      var x :| x in roots && Depends(before, p, x);
      DependsOn(before, r, p, x);
    }
  }

  lemma ParentsCovered(before: Rows, gone: set<Ref>, business: int, c: Column, targets: set<Ref>)
    requires Intact(before) && Own(before, business, targets) && Referring(before, business, c, targets) <= gone
    ensures Covered(before, gone, c, targets)
  {
  }

  lemma OwnLater(before: Rows, now: Rows, gone: set<Ref>, roots: set<Ref>, business: int, ids: set<Ref>)
    requires Removed(before, now, gone, roots) && Own(before, business, ids)
    ensures Intact(now) && Own(now, business, ids)
  {
  }

  lemma SelectedIsOwn(rows: Rows, business: int, table: Table, ids: set<Ref>)
    requires Selected(rows, business, table, ids)
    ensures Own(rows, business, ids)
  {
  }

  // ---------------------------------------------------------------------------
  // Deletions and updates together

  lemma RemovedIsReduced(before: Rows, now: Rows, gone: set<Ref>, roots: set<Ref>)
    requires Removed(before, now, gone, roots)
    ensures Reduced(before, now, gone, roots)
  {
  }

  lemma ReducedThen(a: Rows, b: Rows, c: Rows, g1: set<Ref>, g2: set<Ref>, roots: set<Ref>, others: set<Ref>)
    requires Reduced(a, b, g1, roots) && Reduced(b, c, g2, others)
    requires forall x :: x in others ==> DependsOnOne(a, x, roots)
    ensures Reduced(a, c, g1 + g2, roots)
  {
    forall r | r in g2 ensures DependsOnOne(a, r, roots) {
      var x :| x in others && Depends(b, r, x);
      DependedBefore(a, b, r, x);
      var y :| y in roots && Depends(a, x, y);
      DependsOn(a, r, x, y);
    }
  }

  lemma NoneLeftLater(before: Rows, now: Rows, gone: set<Ref>, roots: set<Ref>, c: Column, targets: set<Ref>)
    requires Reduced(before, now, gone, roots) && NoneLeft(before, c, targets)
    ensures NoneLeft(now, c, targets)
  {
  }

  lemma CoveredLeavesNone(before: Rows, now: Rows, gone: set<Ref>, roots: set<Ref>, c: Column, targets: set<Ref>)
    requires Reduced(before, now, gone, roots) && Covered(before, gone, c, targets)
    ensures NoneLeft(now, c, targets)
  {
  }

  lemma NoneLeftAreFree(rows: Rows, table: Table, victims: set<Ref>)
    requires Typed(rows) && forall v :: v in victims ==> v.table == table
    requires forall c :: TargetOf(c) == table ==> NoneLeft(rows, c, victims)
    ensures Unreferenced(rows, victims)
  {
    forall r, c | r in rows && c in rows[r].refs ensures rows[r].refs[c] !in victims {
      assert rows[r].refs[c].table == TargetOf(c);
      assert TargetOf(c) == table ==> NoneLeft(rows, c, victims);
    }
  }

  /** The row no longer names one of the deleted bookings as the one it was moved from. */
  function Severed(x: Row, ids: set<Ref>): Row {
    if RescheduledFrom in x.refs && x.refs[RescheduledFrom] in ids then x.(refs := x.refs - {RescheduledFrom}) else x
  }

  /** UPDATE of the bookings moved from one of `ids`. */
  function Detached(rows: Rows, business: int, ids: set<Ref>): Rows {
    map r | r in rows ::
      if r.table == Appointments && rows[r].business == Some(business) then Severed(rows[r], ids) else rows[r]
  }

  /** The tables without the rows of `gone` and without traces of the bookings in `ids`. */
  function WithoutBookings(rows: Rows, gone: set<Ref>, ids: set<Ref>): Rows {
    map r | r in rows && r !in gone :: Severed(rows[r], ids)
  }

  /** An UPDATE that only clears references keeps the tables intact. */
  lemma ClearingKeepsIntact(rows: Rows, now: Rows, roots: set<Ref>)
    requires Intact(rows) && now.Keys == rows.Keys && forall r :: r in now ==> Kept(rows[r], now[r])
    ensures Intact(now) && Reduced(rows, now, {}, roots)
  {
  }

  lemma SeveredIsKept(x: Row, ids: set<Ref>)
    ensures Kept(x, Severed(x, ids))
    ensures RescheduledFrom in Severed(x, ids).refs ==> Severed(x, ids).refs[RescheduledFrom] !in ids
  {
  }

  lemma DetachedIsSevered(rows: Rows, business: int, ids: set<Ref>, r: Ref)
    requires Intact(rows) && Own(rows, business, ids) && r in rows
    ensures Detached(rows, business, ids)[r] == Severed(rows[r], ids)
  {
    if RescheduledFrom in rows[r].refs {
      assert r.table == TableOf(RescheduledFrom) && rows[r].refs[RescheduledFrom] in rows;
    }
  }

  lemma DetachedKeeps(rows: Rows, business: int, ids: set<Ref>)
    requires Intact(rows) && Own(rows, business, ids)
    ensures var now := Detached(rows, business, ids);
            && Intact(now) && now.Keys == rows.Keys && NoneLeft(now, RescheduledFrom, ids)
            && (forall r :: r in now ==> Kept(rows[r], now[r]) && now[r] == Severed(rows[r], ids))
  {
    var now := Detached(rows, business, ids);
    forall r | r in rows
      ensures Kept(rows[r], now[r]) && now[r] == Severed(rows[r], ids)
      ensures RescheduledFrom in now[r].refs ==> now[r].refs[RescheduledFrom] !in ids
    {
      DetachedIsSevered(rows, business, ids, r);
      SeveredIsKept(rows[r], ids);
    }
    hide Severed, Kept, Detached;
    ClearingKeepsIntact(rows, now, {});
  }

  /** One group of statements after another, with the columns each covers. */
  lemma Extend(before: Rows, middle: Rows, now: Rows, gone: set<Ref>, g: set<Ref>, ids: set<Ref>,
               covered: set<Column>, more: set<Column>)
    requires Removed(before, middle, gone, ids) && Removed(middle, now, g, ids)
    requires forall c :: c in covered ==> Covered(before, gone, c, ids)
    requires forall c :: c in more ==> Covered(middle, g, c, ids)
    ensures Removed(before, now, gone + g, ids)
    ensures forall c :: c in covered + more ==> Covered(before, gone + g, c, ids)
  {
    RootsDepend(before, ids);
    RemovedThen(before, middle, now, gone, g, ids, ids);
    forall c | c in covered + more ensures Covered(before, gone + g, c, ids) {
      if c in covered {
        CoveredLater(before, gone, gone + g, c, ids);
      } else {
        OneMoreStatement(before, middle, now, gone, g, ids, ids, c);
      }
    }
  }

  lemma AllBookingColumns(c: Column)
    requires TargetOf(c) == Appointments && c != RescheduledFrom
    ensures c in {PaymentAppointment} + {ReviewAppointment} + {EntryBooked} + Elements(ATTACHED)
  {
    assert forall k :: 0 <= k < 5 ==> ATTACHED[k] in Elements(ATTACHED);
    assert ATTACHED[0] == JobAppointment && ATTACHED[1] == MediaAppointment && ATTACHED[2] == SnapshotAppointment
        && ATTACHED[3] == ReservationAppointment && ATTACHED[4] == HistoryAppointment;
  }

  lemma NoBookings(rows: Rows)
    requires Intact(rows)
    ensures Reduced(rows, rows, {}, {}) && rows == WithoutBookings(rows, {}, {})
  {
  }

  /** With the dependents gone and the references cleared nothing refers to the bookings. */
  lemma BookingsAreDetachable(before: Rows, middle: Rows, gone: set<Ref>, business: int, ids: set<Ref>)
    requires Selected(before, business, Appointments, ids) && Removed(before, middle, gone, ids)
    requires forall c :: TargetOf(c) == Appointments && c != RescheduledFrom ==> Covered(before, gone, c, ids)
    ensures var now := Detached(middle, business, ids);
            Intact(now) && Unreferenced(now, ById(now, business, ids))
  {
    var now := Detached(middle, business, ids);
    DetachedKeeps(middle, business, ids);
    RemovedIsReduced(before, middle, gone, ids);
    forall c | TargetOf(c) == Appointments ensures NoneLeft(now, c, ids) {
      if c != RescheduledFrom {
        CoveredLeavesNone(before, middle, gone, ids, c, ids);
      }
    }
    NoneLeftAreFree(now, Appointments, ids);
  }

  lemma DeletedById(before: Rows, detached: Rows, gone: set<Ref>, business: int, table: Table, ids: set<Ref>)
    requires Selected(before, business, table, ids) && detached.Keys == before.Keys - gone
    requires forall r :: r in detached ==> detached[r].business == before[r].business
    ensures (detached - ById(detached, business, ids)).Keys == before.Keys - (gone + ids) && ids <= before.Keys
  {
  }

  lemma BookingsAreGone(before: Rows, middle: Rows, detached: Rows, now: Rows, gone: set<Ref>, business: int,
                        ids: set<Ref>)
    requires Selected(before, business, Appointments, ids) && Removed(before, middle, gone, ids)
    requires detached == Detached(middle, business, ids) && now == detached - ById(detached, business, ids)
             && Intact(now)
    ensures Reduced(before, now, gone + ids, ids) && now == WithoutBookings(before, gone + ids, ids)
  {
    hide Severed, DependsOnOne;
    DetachedKeeps(middle, business, ids);
    RootsDepend(before, ids);
    assert forall r :: r in detached ==> detached[r].business == before[r].business;
    DeletedById(before, detached, gone, business, Appointments, ids);
    hide Detached, ById, Selected;
    forall r | r in now ensures Kept(before[r], now[r]) && now[r] == Severed(before[r], ids) {
      assert r in middle && middle[r] == before[r];
    }
    hide Kept, Intact;
    assert now == WithoutBookings(before, gone + ids, ids);
  }

  // ---------------------------------------------------------------------------
  // The aggregate is deleted, and nothing else

  ghost predicate Mine(rows: Rows, business: int, root: Ref) { root in rows && rows[root].business == Some(business) }

  /** What a remaining row is part of remains too. */
  lemma WholeStays(before: Rows, now: Rows, gone: set<Ref>, root: Ref, r: Ref, p: Ref)
    requires Reduced(before, now, gone, {root}) && r in now && PartOf(before, r, p)
    ensures p in now
  {
    var c :| c in before[r].refs && !Cleared(c) && before[r].refs[c] == p;
    assert c in now[r].refs;
  }

  lemma {:induction false} ChainIsGone(before: Rows, now: Rows, gone: set<Ref>, root: Ref, path: seq<Ref>, r: Ref)
    requires Intact(before) && Reduced(before, now, gone, {root}) && root in gone
    requires Connects(before, path, r, root) && r in before
    ensures r in gone
    decreases |path|
  {
    if |path| > 1 {
      var p := path[1];
      assert PartOf(before, path[0], path[0 + 1]);
      assert Connects(before, path[1..], p, root) by {
        forall i | 0 <= i < |path[1..]| - 1 ensures PartOf(before, path[1..][i], path[1..][i + 1]) {
          assert PartOf(before, path[i + 1], path[i + 1 + 1]);
        }
      }
      ChainIsGone(before, now, gone, root, path[1..], p);
      if r in now {
        WholeStays(before, now, gone, root, r, p);
      }
    }
  }

  /** Because the tables are intact afterwards, what is gone is the root and all its dependents. */
  lemma AggregateIsExact(before: Rows, now: Rows, gone: set<Ref>, root: Ref)
    requires Intact(before) && Reduced(before, now, gone, {root}) && root in gone
    ensures gone == Dependents(before, root)
  {
    forall r | r in before && Depends(before, r, root) ensures r in gone {
      var path :| Connects(before, path, r, root);
      ChainIsGone(before, now, gone, root, path, r);
    }
    forall r | r in gone ensures Depends(before, r, root) {
      assert DependsOnOne(before, r, {root});
    }
  }

  lemma SameBusiness(before: Rows, now: Rows, gone: set<Ref>, roots: set<Ref>)
    requires Reduced(before, now, gone, roots)
    ensures forall r :: r in now ==> r in before && now[r].business == before[r].business
  {
  }

  /** The root goes last. */
  lemma RootIsGone(before: Rows, middle: Rows, now: Rows, gone: set<Ref>, business: int, root: Ref)
    requires Mine(before, business, root) && Reduced(before, middle, gone, {root})
    requires Intact(now) && now == middle - ById(middle, business, {root})
    ensures Reduced(before, now, gone + {root}, {root})
  {
    hide Intact, Kept, DependsOnOne;
    SameBusiness(before, middle, gone, {root});
    RootsDepend(before, {root});
    DeletedById(before, middle, gone, business, root.table, {root});
  }

  lemma SelectedLater(before: Rows, now: Rows, gone: set<Ref>, roots: set<Ref>, business: int, table: Table,
                      ids: set<Ref>)
    requires Removed(before, now, gone, roots) && Selected(before, business, table, ids)
    requires forall r :: r in gone ==> r.table != table
    ensures Intact(now) && Selected(now, business, table, ids)
  {
  }

  lemma MineIsOwn(rows: Rows, business: int, root: Ref)
    requires Mine(rows, business, root)
    ensures Own(rows, business, {root})
  {
  }

  lemma WindowIsFree(before: Rows, middle: Rows, now: Rows, gone: set<Ref>, g: set<Ref>, business: int, w: Ref)
    requires Intact(before) && Mine(before, business, w) && w.table == Windows
    requires Removed(before, middle, gone, {w})
    requires forall c :: c in {NotificationWindow} + {ReservationWindow} ==> Covered(before, gone, c, {w})
    requires var bookings := Referring(before, business, AppointmentWindow, {w});
             Reduced(middle, now, g, bookings) && bookings <= g
    ensures Reduced(before, now, gone + g, {w})
    ensures Intact(now) && Unreferenced(now, ById(now, business, {w}))
  {
    hide Intact, Kept, DependsOnOne, Own, Removed, Reduced, Covered, NoneLeft, Referring, Mine;
    var bookings := Referring(before, business, AppointmentWindow, {w});
    ReferringDepend(before, business, AppointmentWindow, {w});
    RemovedIsReduced(before, middle, gone, {w});
    ReducedThen(before, middle, now, gone, g, {w}, bookings);
    MineIsOwn(before, business, w);
    ParentsCovered(before, gone + g, business, AppointmentWindow, {w});
    forall c | TargetOf(c) == Windows ensures NoneLeft(now, c, {w}) {
      if c != AppointmentWindow {
        assert c in {NotificationWindow} + {ReservationWindow};
        CoveredLater(before, gone, gone + g, c, {w});
      }
      CoveredLeavesNone(before, now, gone + g, {w}, c, {w});
    }
    ReducedKeys(before, now, gone + g, {w});
    NoneLeftAreFree(now, Windows, {w});
  }

  lemma WindowResult(before: Rows, middle: Rows, last: Rows, now: Rows, gone: set<Ref>, g: set<Ref>, business: int,
                     w: Ref, bookings: set<Ref>)
    requires Mine(before, business, w) && gone <= before.Keys && middle == before - gone
    requires last == WithoutBookings(middle, g, bookings)
    requires now == last - ById(last, business, {w})
    ensures now == WithoutBookings(before, gone + g + {w}, bookings)
  {
    assert w in last ==> last[w].business == Some(business);
  }

  // ---------------------------------------------------------------------------
  // What a service leaves behind

  predicate Names(x: Row, c: Column, target: Ref) { c in x.refs && x.refs[c] == target }

  /** The windows of the deleted bookings. */
  function WindowsOf(rows: Rows, bookings: set<Ref>): set<Ref> {
    set a | a in bookings && a in rows && AppointmentWindow in rows[a].refs :: rows[a].refs[AppointmentWindow]
  }

  function CloseWindow(x: Row): Row {
    x.(status := Some(Closed), refs := x.refs - {WindowService, WindowWorkstation})
  }

  /** A window that was for the service, or held one of its bookings, is closed and forgets both
      service and workstation; a portfolio item forgets the service. */
  function RowAfter(x: Row, r: Ref, service: Ref, windows: set<Ref>): Row {
    if r.table == Windows && (Names(x, WindowService, service) || r in windows) then CloseWindow(x)
    else if r.table == PortfolioItems && Names(x, PortfolioService, service)
    then x.(refs := x.refs - {PortfolioService})
    else x
  }

  /** UPDATE of the windows. */
  function ClosedWindows(rows: Rows, business: int, service: Ref, windows: set<Ref>): Rows {
    map r | r in rows ::
      if r.table == Windows && rows[r].business == Some(business)
         && (Names(rows[r], WindowService, service) || r in windows)
      then CloseWindow(rows[r]) else rows[r]
  }

  /** UPDATE of the portfolio. */
  function UnlinkedItems(rows: Rows, business: int, service: Ref): Rows {
    map r | r in rows ::
      if r.table == PortfolioItems && rows[r].business == Some(business) && Names(rows[r], PortfolioService, service)
      then rows[r].(refs := rows[r].refs - {PortfolioService}) else rows[r]
  }

  lemma NamesOwn(rows: Rows, business: int, r: Ref, c: Column, target: Ref)
    requires Intact(rows) && r in rows && Names(rows[r], c, target) && Scoped(r.table) && Own(rows, business, {target})
    ensures r.table == TableOf(c) && rows[r].business == Some(business)
  {
    assert rows[r].refs[c] in rows && target in {target};
  }

  lemma ClosedRow(rows: Rows, business: int, service: Ref, windows: set<Ref>, r: Ref)
    requires Intact(rows) && Own(rows, business, {service}) && Own(rows, business, windows) && r in rows
    ensures var after := ClosedWindows(rows, business, service, windows)[r];
            && Kept(rows[r], after) && !Names(after, WindowService, service)
            && after == if r.table == Windows then RowAfter(rows[r], r, service, windows) else rows[r]
  {
    if Names(rows[r], WindowService, service) {
      assert r.table == TableOf(WindowService);
      NamesOwn(rows, business, r, WindowService, service);
    }
    if r.table == Windows && r in windows {
      assert rows[r].business == Some(business);
    }
  }

  lemma ClosingKeeps(rows: Rows, business: int, service: Ref, windows: set<Ref>)
    requires Intact(rows) && Own(rows, business, {service}) && Own(rows, business, windows)
    ensures var now := ClosedWindows(rows, business, service, windows);
            && Intact(now) && Reduced(rows, now, {}, {service}) && now.Keys == rows.Keys
            && NoneLeft(now, WindowService, {service})
            && forall r :: r in now ==>
                 now[r] == if r.table == Windows then RowAfter(rows[r], r, service, windows) else rows[r]
  {
    var now := ClosedWindows(rows, business, service, windows);
    assert now.Keys == rows.Keys;
    hide RowAfter, Kept, ClosedWindows, Intact, Own, Reduced;
    forall r | r in rows
      ensures Kept(rows[r], now[r]) && !Names(now[r], WindowService, service)
      ensures now[r] == if r.table == Windows then RowAfter(rows[r], r, service, windows) else rows[r]
    {
      ClosedRow(rows, business, service, windows, r);
    }
    ClearingKeepsIntact(rows, now, {service});
  }

  lemma UnlinkedRow(rows: Rows, business: int, service: Ref, windows: set<Ref>, r: Ref)
    requires Intact(rows) && Own(rows, business, {service}) && r in rows
    ensures var after := UnlinkedItems(rows, business, service)[r];
            && Kept(rows[r], after) && !Names(after, PortfolioService, service)
            && after == if r.table == PortfolioItems then RowAfter(rows[r], r, service, windows) else rows[r]
  {
    if Names(rows[r], PortfolioService, service) {
      assert r.table == TableOf(PortfolioService);
      NamesOwn(rows, business, r, PortfolioService, service);
    }
  }

  lemma UnlinkingKeeps(rows: Rows, business: int, service: Ref, windows: set<Ref>)
    requires Intact(rows) && Own(rows, business, {service})
    ensures var now := UnlinkedItems(rows, business, service);
            && Intact(now) && Reduced(rows, now, {}, {service}) && now.Keys == rows.Keys
            && NoneLeft(now, PortfolioService, {service})
            && forall r :: r in now ==>
                 now[r] == if r.table == PortfolioItems then RowAfter(rows[r], r, service, windows) else rows[r]
  {
    var now := UnlinkedItems(rows, business, service);
    assert now.Keys == rows.Keys;
    hide RowAfter, Kept, UnlinkedItems, Intact, Own, Reduced;
    forall r | r in rows
      ensures Kept(rows[r], now[r]) && !Names(now[r], PortfolioService, service)
      ensures now[r] == if r.table == PortfolioItems then RowAfter(rows[r], r, service, windows) else rows[r]
    {
      UnlinkedRow(rows, business, service, windows, r);
    }
    ClearingKeepsIntact(rows, now, {service});
  }

  lemma DependsThrough(rows: Rows, e: Ref, parents: set<Ref>, root: Ref)
    requires DependsOnOne(rows, e, parents) && forall p :: p in parents ==> DependsOnOne(rows, p, {root})
    ensures DependsOnOne(rows, e, {root})
  {
    var p :| p in parents && Depends(rows, e, p);
    assert Depends(rows, p, root);
    DependsOn(rows, e, p, root);
  }

  /** The entries that wait for the service or led to one of its bookings. */
  lemma EntriesDepend(rows: Rows, business: int, service: Ref)
    ensures var bookings := Referring(rows, business, AppointmentService, {service});
            var entries :=
              Referring(rows, business, EntryService, {service}) + Referring(rows, business, EntryBooked, bookings);
            && (forall e :: e in entries ==> DependsOnOne(rows, e, {service}))
            && Selected(rows, business, WaitlistEntries, entries)
  {
    hide DependsOnOne, Referring;
    var bookings := Referring(rows, business, AppointmentService, {service});
    ReferringDepend(rows, business, AppointmentService, {service});
    ReferringDepend(rows, business, EntryService, {service});
    ReferringDepend(rows, business, EntryBooked, bookings);
    forall e | e in Referring(rows, business, EntryBooked, bookings) ensures DependsOnOne(rows, e, {service}) {
      DependsThrough(rows, e, bookings, service);
    }
  }

  lemma RemovedFor(before: Rows, now: Rows, gone: set<Ref>, parents: set<Ref>, roots: set<Ref>)
    requires Intact(before) && Removed(before, now, gone, parents)
    requires forall x :: x in parents ==> DependsOnOne(before, x, roots)
    ensures Removed(before, now, gone, roots)
  {
    RemovedNothing(before, roots);
    RemovedThen(before, before, now, {}, gone, roots, parents);
    assert {} + gone == gone;
  }

  lemma SameReferring(before: Rows, now: Rows, gone: set<Ref>, roots: set<Ref>, business: int, c: Column,
                      targets: set<Ref>)
    requires Removed(before, now, gone, roots) && forall r :: r in gone ==> r.table != TableOf(c)
    ensures Intact(now) && Referring(now, business, c, targets) == Referring(before, business, c, targets)
  {
  }

  lemma ReducedOn(before: Rows, middle: Rows, now: Rows, gone: set<Ref>, g: set<Ref>, roots: set<Ref>,
                  covered: set<Column>, more: set<Column>)
    requires Reduced(before, middle, gone, roots) && Reduced(middle, now, g, roots)
    requires forall c :: c in covered ==> NoneLeft(middle, c, roots)
    requires forall c :: c in more ==> NoneLeft(now, c, roots)
    ensures Reduced(before, now, gone + g, roots)
    ensures forall c :: c in covered + more ==> NoneLeft(now, c, roots)
  {
    RootsDepend(before, roots);
    ReducedThen(before, middle, now, gone, g, roots, roots);
    forall c | c in covered ensures NoneLeft(now, c, roots) {
      NoneLeftLater(middle, now, g, roots, c, roots);
    }
  }

  lemma RemovedLeavesNone(before: Rows, now: Rows, gone: set<Ref>, c: Column, roots: set<Ref>)
    requires Removed(before, now, gone, roots) && Covered(before, gone, c, roots)
    ensures Reduced(before, now, gone, roots) && NoneLeft(now, c, roots)
  {
    RemovedIsReduced(before, now, gone, roots);
    CoveredLeavesNone(before, now, gone, roots, c, roots);
  }

  lemma OwnAfter(before: Rows, now: Rows, gone: set<Ref>, roots: set<Ref>, business: int, ids: set<Ref>)
    requires Reduced(before, now, gone, roots) && Own(before, business, ids)
    ensures Intact(now) && Own(now, business, ids)
  {
  }

  lemma AddonsAreFree(rows: Rows, business: int, service: Ref)
    requires Intact(rows) && NoneLeft(rows, SnapshotAddon, Referring(rows, business, AddonService, {service}))
    ensures Unreferenced(rows, Referring(rows, business, AddonService, {service}))
  {
    hide Resolved, NoneLeft;
    var addons := Referring(rows, business, AddonService, {service});
    forall c | TargetOf(c) == Addons ensures NoneLeft(rows, c, addons) {
      assert c == SnapshotAddon;
    }
    NoneLeftAreFree(rows, Addons, addons);
  }

  lemma AddonsAreGone(before: Rows, now: Rows, business: int, service: Ref)
    requires Intact(before) && Own(before, business, {service}) && Intact(now)
    requires now == before - Referring(before, business, AddonService, {service})
    ensures Reduced(before, now, Referring(before, business, AddonService, {service}), {service})
    ensures NoneLeft(now, AddonService, {service})
  {
    var addons := Referring(before, business, AddonService, {service});
    ReferringDepend(before, business, AddonService, {service});
    ParentsCovered(before, addons, business, AddonService, {service});
    RemovedLeavesNone(before, now, addons, AddonService, {service});
  }

  /** Rows as the update of one table leaves them. */
  ghost predicate TableAfter(before: Rows, now: Rows, table: Table, service: Ref, windows: set<Ref>) {
    forall r :: r in now ==>
      r in before && now[r] == if r.table == table then RowAfter(before[r], r, service, windows) else before[r]
  }

  lemma WindowsDetached(before: Rows, closed: Rows, now: Rows, g: set<Ref>, business: int, service: Ref,
                        windows: set<Ref>)
    requires Intact(before) && Own(before, business, {service}) && Own(before, business, windows)
    requires closed == ClosedWindows(before, business, service, windows) && Removed(closed, now, g, {service})
    requires forall c :: c in {AssignmentService} + {ServiceOfWorkstation} ==> Covered(closed, g, c, {service})
    ensures Reduced(before, now, g, {service}) && TableAfter(before, now, Windows, service, windows)
    ensures forall c :: c in {WindowService} + {AssignmentService, ServiceOfWorkstation} ==> NoneLeft(now, c, {service})
  {
    hide RowAfter, Kept, ClosedWindows, Intact, Own, Covered, DependsOnOne, Removed, Reduced, NoneLeft;
    ClosingKeeps(before, business, service, windows);
    RemovedExactly(closed, now, g, {service});
    RemovedLeavesNone(closed, now, g, AssignmentService, {service});
    RemovedLeavesNone(closed, now, g, ServiceOfWorkstation, {service});
    ReducedOn(before, closed, now, {}, g, {service}, {WindowService}, {AssignmentService, ServiceOfWorkstation});
    assert {} + g == g;
  }

  lemma CatalogDetached(before: Rows, unlinked: Rows, now: Rows, g: set<Ref>, business: int, service: Ref,
                        windows: set<Ref>)
    requires Intact(before) && Own(before, business, {service}) && unlinked == UnlinkedItems(before, business, service)
    requires Reduced(unlinked, now, g, {service}) && now == unlinked - g && NoneLeft(now, AddonService, {service})
    ensures Reduced(before, now, g, {service}) && TableAfter(before, now, PortfolioItems, service, windows)
    ensures forall c :: c in {PortfolioService} + {AddonService} ==> NoneLeft(now, c, {service})
  {
    hide RowAfter, Kept, UnlinkedItems, Intact, Own, DependsOnOne, Reduced, NoneLeft;
    UnlinkingKeeps(before, business, service, windows);
    ReducedOn(before, unlinked, now, {}, g, {service}, {PortfolioService}, {AddonService});
    assert {} + g == g;
  }

  lemma FewerReferring(before: Rows, now: Rows, gone: set<Ref>, roots: set<Ref>, business: int, c: Column,
                       targets: set<Ref>, d: Column)
    requires Reduced(before, now, gone, roots) && NoneLeft(now, d, Referring(before, business, c, targets))
    ensures NoneLeft(now, d, Referring(now, business, c, targets))
  {
    forall r | r in Referring(now, business, c, targets) ensures r in Referring(before, business, c, targets) {
      assert Kept(before[r], now[r]);
    }
  }

  lemma CoveredAcross(before: Rows, middle: Rows, gone: set<Ref>, g: set<Ref>, c: Column, targets: set<Ref>)
    requires gone <= before.Keys && middle == before - gone && Covered(middle, g, c, targets)
    ensures Covered(before, gone + g, c, targets)
  {
  }

  /** What the first half of the deletion leaves: no booking, hold or waitlist entry names the
      service, and no booking remembers one of its add-ons. */
  lemma BookingsDetached(before: Rows, middle: Rows, now: Rows, gone: set<Ref>, g: set<Ref>, business: int,
                         service: Ref)
    requires Intact(before) && Own(before, business, {service})
    requires Removed(before, middle, gone, {service})
    requires forall c :: c in {EntryService} + {ReservationService} ==> Covered(before, gone, c, {service})
    requires Covered(before, gone, SnapshotAddon, Referring(before, business, AddonService, {service}))
    requires var bookings := Referring(before, business, AppointmentService, {service});
             Reduced(middle, now, g, bookings) && bookings <= g
    ensures Reduced(before, now, gone + g, {service})
    ensures forall c :: c in {EntryService, ReservationService, AppointmentService} ==> NoneLeft(now, c, {service})
    ensures NoneLeft(now, SnapshotAddon, Referring(now, business, AddonService, {service}))
  {
    var bookings := Referring(before, business, AppointmentService, {service});
    var addons := Referring(before, business, AddonService, {service});
    ReferringDepend(before, business, AppointmentService, {service});
    RemovedIsReduced(before, middle, gone, {service});
    hide Intact, Own, Kept, DependsOnOne, Removed, Referring;
    ReducedThen(before, middle, now, gone, g, {service}, bookings);
    ParentsCovered(before, gone + g, business, AppointmentService, {service});
    CoveredLater(before, gone, gone + g, EntryService, {service});
    CoveredLater(before, gone, gone + g, ReservationService, {service});
    CoveredLater(before, gone, gone + g, SnapshotAddon, addons);
    hide Reduced, Covered, NoneLeft;
    CoveredLeavesNone(before, now, gone + g, {service}, EntryService, {service});
    CoveredLeavesNone(before, now, gone + g, {service}, ReservationService, {service});
    CoveredLeavesNone(before, now, gone + g, {service}, AppointmentService, {service});
    CoveredLeavesNone(before, now, gone + g, {service}, SnapshotAddon, addons);
    FewerReferring(before, now, gone + g, {service}, business, AddonService, {service}, SnapshotAddon);
  }

  lemma SnapshotsStayGone(before: Rows, middle: Rows, now: Rows, gone: set<Ref>, business: int, service: Ref)
    requires Reduced(before, middle, gone, {service}) && Reduced(middle, now, {}, {service})
    requires NoneLeft(before, SnapshotAddon, Referring(before, business, AddonService, {service}))
    ensures NoneLeft(now, SnapshotAddon, Referring(now, business, AddonService, {service}))
  {
    RootsDepend(before, {service});
    var addons := Referring(before, business, AddonService, {service});
    hide Intact, Kept, DependsOnOne, Referring;
    ReducedThen(before, middle, now, gone, {}, {service}, {service});
    NoneLeftLater(before, now, gone + {}, {service}, SnapshotAddon, addons);
    FewerReferring(before, now, gone + {}, {service}, business, AddonService, {service}, SnapshotAddon);
  }

  lemma ReducedKeys(before: Rows, now: Rows, gone: set<Ref>, roots: set<Ref>)
    requires Reduced(before, now, gone, roots)
    ensures Intact(now) && now.Keys == before.Keys - gone
  {
  }

  lemma TablesAfter(before: Rows, middle: Rows, now: Rows, service: Ref, windows: set<Ref>)
    requires TableAfter(before, middle, Windows, service, windows)
    requires TableAfter(middle, now, PortfolioItems, service, windows)
    ensures forall r :: r in now ==> r in middle && r in before
  {
  }

  lemma RemovedExactly(before: Rows, now: Rows, gone: set<Ref>, roots: set<Ref>)
    requires Removed(before, now, gone, roots)
    ensures gone <= before.Keys && now == before - gone
  {
  }

  lemma WithoutBookingsOn(before: Rows, middle: Rows, now: Rows, gone: set<Ref>, g: set<Ref>, bookings: set<Ref>)
    requires gone <= before.Keys && middle == before - gone && now == WithoutBookings(middle, g, bookings)
    ensures now == WithoutBookings(before, gone + g, bookings)
  {
  }

  lemma WindowsAreOwn(rows: Rows, business: int, service: Ref)
    requires Intact(rows)
    ensures Own(rows, business, WindowsOf(rows, Referring(rows, business, AppointmentService, {service})))
  {
    var bookings := Referring(rows, business, AppointmentService, {service});
    forall a | a in bookings && AppointmentWindow in rows[a].refs
      ensures Own(rows, business, {rows[a].refs[AppointmentWindow]})
    {
      assert rows[a].refs[AppointmentWindow].table == TargetOf(AppointmentWindow);
    }
    forall w | w in WindowsOf(rows, bookings) && w in rows ensures rows[w].business == Some(business) {
      var a :| a in bookings && AppointmentWindow in rows[a].refs && rows[a].refs[AppointmentWindow] == w;
      assert w in {w} && Own(rows, business, {rows[a].refs[AppointmentWindow]});
    }
  }

  /** The tables without the service's aggregate and without traces of it. */
  function WithoutService(rows: Rows, gone: set<Ref>, service: Ref, windows: set<Ref>, bookings: set<Ref>): Rows {
    map r | r in rows && r !in gone :: RowAfter(Severed(rows[r], bookings), r, service, windows)
  }

  lemma ServiceResult(before: Rows, middle: Rows, detached: Rows, last: Rows, now: Rows, g1: set<Ref>, gone: set<Ref>,
                      business: int, service: Ref, windows: set<Ref>, bookings: set<Ref>)
    requires middle == WithoutBookings(before, g1, bookings)
    requires TableAfter(middle, detached, Windows, service, windows) && (forall r :: r in last ==> r in detached)
    requires TableAfter(detached, last, PortfolioItems, service, windows)
    requires now == last - ById(last, business, {service}) && now.Keys == before.Keys - gone
    ensures now == WithoutService(before, gone, service, windows, bookings)
  {
    hide Severed;
    forall r | r in now ensures now[r] == RowAfter(Severed(before[r], bookings), r, service, windows) {
      assert middle[r] == Severed(before[r], bookings);
    }
  }

  // ---------------------------------------------------------------------------
  // What the two deletions leave, column by column

  /** A booking of the service used the window. */
  ghost predicate UsedFor(rows: Rows, service: Ref, w: Ref) {
    exists a :: a in rows && Names(rows[a], AppointmentService, service) && Names(rows[a], AppointmentWindow, w)
  }

  /** The window was made for the service, or a booking of the service used it. */
  ghost predicate WindowFor(rows: Rows, service: Ref, w: Ref) {
    w in rows && w.table == Windows && (Names(rows[w], WindowService, service) || UsedFor(rows, service, w))
  }

  /** The reference is gone with what it referred to: a booking that this one was moved from. */
  predicate Forgotten(now: Rows, x: Row, c: Column) {
    c == RescheduledFrom && c in x.refs && x.refs[c] !in now
  }

  /** Apart from the aggregate every row is left with all it had, except that bookings forget
      deleted ones that they were moved from. */
  ghost predicate OnlyForgets(before: Rows, now: Rows, root: Ref) {
    && now.Keys == before.Keys - Dependents(before, root)
    && forall r :: r in now ==>
         var x, y := before[r], now[r];
         && y.business == x.business && y.status == x.status && y.other == x.other
         && forall c ::
              && (c in y.refs <==> c in x.refs && !Forgotten(now, x, c))
              && (c in y.refs ==> y.refs[c] == x.refs[c])
  }

  /** The column of a row names the service that was deleted, or belongs to a closed window. */
  ghost predicate LetsGo(before: Rows, service: Ref, r: Ref, c: Column) {
    || (WindowFor(before, service, r) && (c == WindowService || c == WindowWorkstation))
    || (c == PortfolioService && r in before && Names(before[r], c, service))
  }

  /** The same for a service: its windows are closed and have no service and no workstation, and
      portfolio items lose their link to it. */
  ghost predicate OnlyLetsGo(before: Rows, now: Rows, service: Ref) {
    && now.Keys == before.Keys - Dependents(before, service)
    && forall r :: r in now ==> LetsGoOf(before, now, service, r)
  }

  ghost predicate LetsGoOf(before: Rows, now: Rows, service: Ref, r: Ref)
    requires r in now && r in before
  {
    var x, y := before[r], now[r];
    && y.business == x.business && y.other == x.other
    && y.status == (if WindowFor(before, service, r) then Some(Closed) else x.status)
    && forall c ::
         && (c in y.refs <==> c in x.refs && !Forgotten(now, x, c) && !LetsGo(before, service, r, c))
         && (c in y.refs ==> y.refs[c] == x.refs[c])
  }

  /** On intact tables the rows that a column selects in the business are all that name the target. */
  lemma ReferringAll(rows: Rows, business: int, c: Column, target: Ref)
    requires Intact(rows) && Own(rows, business, {target}) && Scoped(TableOf(c))
    ensures Referring(rows, business, c, {target}) == set r | r in rows && Names(rows[r], c, target)
  {
    forall r | r in rows && Names(rows[r], c, target) ensures r in Referring(rows, business, c, {target}) {
      assert r.table == TableOf(c);
      NamesOwn(rows, business, r, c, target);
    }
  }

  lemma WindowsAreUsed(rows: Rows, business: int, service: Ref, w: Ref)
    requires Intact(rows) && Own(rows, business, {service})
    ensures w in WindowsOf(rows, Referring(rows, business, AppointmentService, {service})) <==>
              UsedFor(rows, service, w)
  {
    ReferringAll(rows, business, AppointmentService, service);
    hide Referring;
    if UsedFor(rows, service, w) {
      var a :| a in rows && Names(rows[a], AppointmentService, service) && Names(rows[a], AppointmentWindow, w);
      assert a in Referring(rows, business, AppointmentService, {service});
    }
  }

  /** What is severed from the bookings is exactly what is no longer there. */
  lemma SeveredForgets(before: Rows, now: Rows, bookings: set<Ref>, r: Ref, y: Row)
    requires Intact(before) && Intact(now) && r in before && r in now && bookings !! now.Keys
    requires y == Severed(before[r], bookings)
    requires RescheduledFrom in y.refs ==> Names(now[r], RescheduledFrom, y.refs[RescheduledFrom])
    ensures y.business == before[r].business && y.status == before[r].status && y.other == before[r].other
    ensures forall c :: c in y.refs <==> c in before[r].refs && !Forgotten(now, before[r], c)
    ensures forall c :: c in y.refs ==> y.refs[c] == before[r].refs[c]
  {
  }

  lemma LetsGoRow(before: Rows, now: Rows, business: int, service: Ref, bookings: set<Ref>, r: Ref)
    requires Intact(before) && Intact(now) && Own(before, business, {service}) && r in before && r in now
    requires bookings == Referring(before, business, AppointmentService, {service}) && bookings !! now.Keys
    requires now[r] == RowAfter(Severed(before[r], bookings), r, service, WindowsOf(before, bookings))
    ensures LetsGoOf(before, now, service, r)
  {
    var x, y := before[r], Severed(before[r], bookings);
    WindowsAreUsed(before, business, service, r);
    SeveredForgets(before, now, bookings, r, y);
    ServiceColumns(before, service, r);
    hide Intact, Severed, WindowsOf, Referring, UsedFor, Own, Forgotten, RowAfter, LetsGoOf;
    LetsGoColumns(before, now, service, WindowsOf(before, bookings), r, y);
  }

  lemma LetsGoColumns(before: Rows, now: Rows, service: Ref, windows: set<Ref>, r: Ref, y: Row)
    requires r in before && r in now && now[r] == RowAfter(y, r, service, windows)
    requires r in windows <==> UsedFor(before, service, r)
    requires Names(before[r], WindowService, service) ==> r.table == Windows
    requires Names(before[r], PortfolioService, service) ==> r.table == PortfolioItems
    requires y.business == before[r].business && y.status == before[r].status && y.other == before[r].other
    requires forall c :: c in y.refs <==> c in before[r].refs && !Forgotten(now, before[r], c)
    requires forall c :: c in y.refs ==> y.refs[c] == before[r].refs[c]
    ensures LetsGoOf(before, now, service, r)
  {
    hide UsedFor;
    var x := before[r];
    assert !Forgotten(now, x, WindowService) && !Forgotten(now, x, PortfolioService);
    assert Names(y, WindowService, service) <==> Names(x, WindowService, service);
    assert Names(y, PortfolioService, service) <==> Names(x, PortfolioService, service);
  }

  /** Only windows have a service to be closed with, only portfolio items one to be unlinked. */
  lemma ServiceColumns(rows: Rows, service: Ref, r: Ref)
    requires Intact(rows) && r in rows
    ensures Names(rows[r], WindowService, service) ==> r.table == Windows
    ensures Names(rows[r], PortfolioService, service) ==> r.table == PortfolioItems
  {
    assert Names(rows[r], WindowService, service) ==> r.table == TableOf(WindowService);
    assert Names(rows[r], PortfolioService, service) ==> r.table == TableOf(PortfolioService);
  }

  lemma ServiceLetsGo(before: Rows, now: Rows, business: int, service: Ref)
    requires Intact(before) && Intact(now) && Own(before, business, {service})
    requires now.Keys == before.Keys - Dependents(before, service)
    requires var bookings := Referring(before, business, AppointmentService, {service});
             now == WithoutService(before, Dependents(before, service), service, WindowsOf(before, bookings), bookings)
    ensures OnlyLetsGo(before, now, service)
  {
    var bookings := Referring(before, business, AppointmentService, {service});
    ReferringDepend(before, business, AppointmentService, {service});
    assert bookings !! now.Keys;
    hide Intact, RowAfter, Severed, WindowsOf, LetsGoOf, Referring, Depends;
    forall r | r in now ensures LetsGoOf(before, now, service, r) {
      LetsGoRow(before, now, business, service, bookings, r);
    }
  }

  lemma WindowForgets(before: Rows, now: Rows, business: int, w: Ref)
    requires Intact(before) && Intact(now) && Own(before, business, {w})
    requires now.Keys == before.Keys - Dependents(before, w)
    requires var bookings := Referring(before, business, AppointmentWindow, {w});
             now == WithoutBookings(before, Dependents(before, w), bookings)
    ensures OnlyForgets(before, now, w)
  {
    var bookings := Referring(before, business, AppointmentWindow, {w});
    ReferringDepend(before, business, AppointmentWindow, {w});
    assert bookings !! now.Keys;
    hide Intact, Severed, Referring, Depends;
    forall r | r in now
      ensures now[r].business == before[r].business && now[r].status == before[r].status
      ensures now[r].other == before[r].other
      ensures forall c :: (c in now[r].refs <==> c in before[r].refs && !Forgotten(now, before[r], c))
                          && (c in now[r].refs ==> now[r].refs[c] == before[r].refs[c])
    {
      SeveredForgets(before, now, bookings, r, now[r]);
    }
  }

  lemma ServiceIsFree(rows: Rows, business: int, service: Ref)
    requires Intact(rows) && service.table == Services
    requires forall c ::
      c in {EntryService, ReservationService, AppointmentService}
           + (({WindowService} + {AssignmentService, ServiceOfWorkstation}) + ({PortfolioService} + {AddonService})) ==>
        NoneLeft(rows, c, {service})
    ensures Unreferenced(rows, ById(rows, business, {service}))
  {
    hide NoneLeft;
    forall c | TargetOf(c) == Services ensures NoneLeft(rows, c, {service}) {
    }
    NoneLeftAreFree(rows, Services, {service});
  }

  /** What is deleted by the booking it belongs to, in order. */
  const ATTACHED: seq<Column> :=
    [JobAppointment, MediaAppointment, SnapshotAppointment, ReservationAppointment, HistoryAppointment]

  class Store {
    var rows: Rows

    constructor ()
      ensures Intact(rows)
    {
      rows := map[];
    }

    /** A DELETE statement; its precondition is that no RESTRICT key is violated. */
    method Delete(victims: set<Ref>)
      requires Intact(rows) && Unreferenced(rows, victims)
      modifies this
      ensures rows == old(rows) - victims && Intact(rows)
    {
      DeletionKeepsIntact(rows, victims);
      rows := rows - victims;
    }

    /** DELETE of the rows of a leaf table by one of their references. */
    method DeleteReferring(business: int, c: Column, targets: set<Ref>) returns (ghost gone: set<Ref>)
      requires Intact(rows) && !Cleared(c) && Leaf(TableOf(c))
      modifies this
      ensures gone == Referring(old(rows), business, c, targets)
      ensures Removed(old(rows), rows, gone, targets)
      ensures Own(old(rows), business, targets) ==> Covered(old(rows), gone, c, targets)
    {
      var victims := Referring(rows, business, c, targets);
      ReferringDepend(rows, business, c, targets);
      LeafUnreferenced(rows, victims);
      Delete(victims);
      gone := victims;
    }

    /** Payments of the bookings, with their refunds and provider events. */
    method DeletePayments(business: int, appointmentIds: set<Ref>) returns (ghost gone: set<Ref>)
      requires Intact(rows) && Own(rows, business, appointmentIds)
      modifies this
      ensures Removed(old(rows), rows, gone, appointmentIds)
      ensures Covered(old(rows), gone, PaymentAppointment, appointmentIds)
    {
      ghost var before := rows;
      var paymentIds := Referring(rows, business, PaymentAppointment, appointmentIds);
      ReferringDepend(rows, business, PaymentAppointment, appointmentIds);
      RemovedNothing(rows, appointmentIds);
      gone := {};
      if paymentIds != {} {
        gone := DeletePaymentRows(business, paymentIds, appointmentIds);
      }
      ParentsCovered(before, gone, business, PaymentAppointment, appointmentIds);
    }

    method DeletePaymentRows(business: int, paymentIds: set<Ref>, ghost roots: set<Ref>) returns (ghost gone: set<Ref>)
      requires Intact(rows) && Selected(rows, business, Payments, paymentIds)
      requires forall p :: p in paymentIds ==> DependsOnOne(rows, p, roots)
      modifies this
      ensures Removed(old(rows), rows, gone, roots) && paymentIds <= gone
    {
      hide Intact, Removed, Covered, Selected, DependsOnOne, Unreferenced, Referring, Own;
      ghost var before := rows;
      SelectedIsOwn(rows, business, Payments, paymentIds);
      RootsDepend(rows, paymentIds);
      ghost var refunds := DeleteReferring(business, RefundPayment, paymentIds);
      ghost var middle := rows;
      OwnLater(before, middle, refunds, paymentIds, business, paymentIds);
      ghost var events := DeleteReferring(business, EventPayment, paymentIds);
      OneMoreStatement(before, middle, rows, refunds, events, paymentIds, paymentIds, EventPayment);
      CoveredLater(before, refunds, refunds + events, RefundPayment, paymentIds);
      CoveredAreFree(before, rows, refunds + events, paymentIds, business, Payments, paymentIds);
      middle := rows;
      Delete(ById(rows, business, paymentIds));
      ThenTheParents(before, middle, rows, refunds + events, business, Payments, paymentIds, roots);
      gone := refunds + events + paymentIds;
    }

    /** Reviews of the bookings, with their revisions. */
    method DeleteReviews(business: int, appointmentIds: set<Ref>) returns (ghost gone: set<Ref>)
      requires Intact(rows) && Own(rows, business, appointmentIds)
      modifies this
      ensures Removed(old(rows), rows, gone, appointmentIds)
      ensures Covered(old(rows), gone, ReviewAppointment, appointmentIds)
    {
      hide Intact, Removed, Covered, Selected, DependsOnOne, Unreferenced, Own;
      ghost var before := rows;
      var reviewIds := Referring(rows, business, ReviewAppointment, appointmentIds);
      ReferringDepend(rows, business, ReviewAppointment, appointmentIds);
      RemovedNothing(rows, appointmentIds);
      gone := {};
      if reviewIds != {} {
        SelectedIsOwn(rows, business, Reviews, reviewIds);
        ghost var revisions := DeleteReferring(business, RevisionReview, reviewIds);
        CoveredAreFree(before, rows, revisions, reviewIds, business, Reviews, reviewIds);
        ghost var middle := rows;
        Delete(ById(rows, business, reviewIds));
        ThenTheParents(before, middle, rows, revisions, business, Reviews, reviewIds, appointmentIds);
        gone := revisions + reviewIds;
      }
      ParentsCovered(before, gone, business, ReviewAppointment, appointmentIds);
    }

    method DeleteWaitlistEntries(business: int, entryIds: set<Ref>, ghost roots: set<Ref>)
        returns (ghost gone: set<Ref>)
      requires Intact(rows) && Selected(rows, business, WaitlistEntries, entryIds)
      requires forall e :: e in entryIds ==> DependsOnOne(rows, e, roots)
      modifies this
      ensures Removed(old(rows), rows, gone, roots) && entryIds <= gone
      ensures forall r :: r in gone ==> r.table == WaitlistEntries || r.table == WaitlistNotifications
    {
      hide Intact, Removed, Covered, DependsOnOne, Unreferenced, Own;
      ghost var before := rows;
      RemovedNothing(rows, roots);
      gone := {};
      if entryIds != {} {
        SelectedIsOwn(rows, business, WaitlistEntries, entryIds);
        ghost var notices := DeleteReferring(business, NotificationEntry, entryIds);
        CoveredAreFree(before, rows, notices, entryIds, business, WaitlistEntries, entryIds);
        ghost var middle := rows;
        Delete(ById(rows, business, entryIds));
        ThenTheParents(before, middle, rows, notices, business, WaitlistEntries, entryIds, roots);
        gone := notices + entryIds;
      }
    }

    /** Notification jobs, reference media, add-on snapshots, reservations and status history. */
    method DeleteAttached(business: int, appointmentIds: set<Ref>) returns (ghost gone: set<Ref>)
      requires Intact(rows) && Own(rows, business, appointmentIds)
      modifies this
      ensures Removed(old(rows), rows, gone, appointmentIds)
      ensures forall c :: c in ATTACHED ==> Covered(old(rows), gone, c, appointmentIds)
    {
      hide Intact, Removed, Covered, DependsOnOne, Unreferenced, Referring, Own;
      ghost var before := rows;
      gone := {};
      RemovedNothing(rows, appointmentIds);
      RootsDepend(rows, appointmentIds);
      for i := 0 to |ATTACHED|
        invariant Removed(before, rows, gone, appointmentIds)
        invariant forall k :: 0 <= k < i ==> Covered(before, gone, ATTACHED[k], appointmentIds)
      {
        ghost var middle := rows;
        OwnLater(before, middle, gone, appointmentIds, business, appointmentIds);
        ghost var g := DeleteReferring(business, ATTACHED[i], appointmentIds);
        OneMoreStatement(before, middle, rows, gone, g, appointmentIds, appointmentIds, ATTACHED[i]);
        forall k | 0 <= k < i ensures Covered(before, gone + g, ATTACHED[k], appointmentIds) {
          CoveredLater(before, gone, gone + g, ATTACHED[k], appointmentIds);
        }
        gone := gone + g;
      }
    }

    /** Everything that depends on the bookings, not yet the bookings. */
    method DeleteBookingDependents(business: int, ids: set<Ref>) returns (ghost gone: set<Ref>)
      requires Intact(rows) && Selected(rows, business, Appointments, ids)
      modifies this
      ensures Removed(old(rows), rows, gone, ids)
      ensures forall c :: TargetOf(c) == Appointments && c != RescheduledFrom ==> Covered(old(rows), gone, c, ids)
    {
      hide Intact, Removed, Covered, DependsOnOne, Unreferenced, Referring, Own, Selected;
      ghost var before := rows;
      SelectedIsOwn(rows, business, Appointments, ids);
      gone := DeletePayments(business, ids);
      ghost var middle := rows;
      OwnLater(before, middle, gone, ids, business, ids);
      ghost var g := DeleteReviews(business, ids);
      Extend(before, middle, rows, gone, g, ids, {PaymentAppointment}, {ReviewAppointment});
      gone := gone + g;
      middle := rows;
      OwnLater(before, middle, gone, ids, business, ids);
      var booked := Referring(rows, business, EntryBooked, ids);
      ReferringDepend(rows, business, EntryBooked, ids);
      g := DeleteWaitlistEntries(business, booked, ids);
      ParentsCovered(middle, g, business, EntryBooked, ids);
      Extend(before, middle, rows, gone, g, ids, {PaymentAppointment} + {ReviewAppointment}, {EntryBooked});
      gone := gone + g;
      middle := rows;
      OwnLater(before, middle, gone, ids, business, ids);
      g := DeleteAttached(business, ids);
      Extend(before, middle, rows, gone, g, ids, {PaymentAppointment} + {ReviewAppointment} + {EntryBooked},
             Elements(ATTACHED));
      gone := gone + g;
      forall c | TargetOf(c) == Appointments && c != RescheduledFrom ensures Covered(before, gone, c, ids) {
        AllBookingColumns(c);
      }
    }

    /** Bookings with everything that depends on them; other bookings forget that they were
        moved from one of these. */
    method DeleteAppointments(business: int, ids: set<Ref>) returns (ghost gone: set<Ref>)
      requires Intact(rows) && Selected(rows, business, Appointments, ids)
      modifies this
      ensures Reduced(old(rows), rows, gone, ids) && ids <= gone
      ensures rows == WithoutBookings(old(rows), gone, ids)
    {
      hide Intact, Removed, Covered, DependsOnOne, Unreferenced, Own, Selected, Reduced, NoneLeft;
      ghost var before := rows;
      gone := {};
      if ids == {} {
        NoBookings(before);
        return;
      }
      gone := DeleteBookingDependents(business, ids);
      ghost var middle := rows;
      BookingsAreDetachable(before, middle, gone, business, ids);
      rows := Detached(rows, business, ids);
      ghost var detached := rows;
      Delete(ById(rows, business, ids));
      BookingsAreGone(before, middle, detached, rows, gone, business, ids);
      gone := gone + ids;
    }

    /** Waitlist entries and reservations of the service. */
    method DeleteServiceHolds(business: int, service: Ref) returns (ghost gone: set<Ref>)
      requires Intact(rows) && Own(rows, business, {service})
      modifies this
      ensures Removed(old(rows), rows, gone, {service})
      ensures forall c :: c in {EntryService} + {ReservationService} ==> Covered(old(rows), gone, c, {service})
      ensures forall r :: r in gone ==> r.table in {WaitlistEntries, WaitlistNotifications, Reservations}
    {
      hide Intact, Removed, Covered, DependsOnOne, Unreferenced, Own, Selected;
      ghost var before := rows;
      var bookings := Referring(rows, business, AppointmentService, {service});
      var entries :=
        Referring(rows, business, EntryService, {service}) + Referring(rows, business, EntryBooked, bookings);
      EntriesDepend(rows, business, service);
      gone := DeleteWaitlistEntries(business, entries, {service});
      ParentsCovered(before, gone, business, EntryService, {service});
      ghost var middle := rows;
      OwnLater(before, middle, gone, {service}, business, {service});
      ghost var g := DeleteReferring(business, ReservationService, {service});
      Extend(before, middle, rows, gone, g, {service}, {EntryService}, {ReservationService});
      gone := gone + g;
    }

    /** What bookings keep of the service's add-ons. */
    method DeleteAddonSnapshots(business: int, service: Ref) returns (ghost gone: set<Ref>)
      requires Intact(rows) && Own(rows, business, {service})
      modifies this
      ensures Removed(old(rows), rows, gone, {service})
      ensures Covered(old(rows), gone, SnapshotAddon, Referring(old(rows), business, AddonService, {service}))
      ensures forall r :: r in gone ==> r.table == AddonSnapshots
    {
      hide Intact, Removed, Covered, DependsOnOne, Unreferenced, Own, Selected;
      ghost var before := rows;
      var addons := Referring(rows, business, AddonService, {service});
      ReferringDepend(before, business, AddonService, {service});
      SelectedIsOwn(before, business, Addons, addons);
      RemovedNothing(rows, {service});
      gone := {};
      if addons != {} {
        gone := DeleteReferring(business, SnapshotAddon, addons);
        RemovedFor(before, rows, gone, addons, {service});
      } else {
        ParentsCovered(before, gone, business, SnapshotAddon, {});
      }
    }

    /** The service's assignments to masters and to workstations. */
    method DeleteServiceLinks(business: int, service: Ref) returns (ghost gone: set<Ref>)
      requires Intact(rows) && Own(rows, business, {service})
      modifies this
      ensures Removed(old(rows), rows, gone, {service})
      ensures forall c :: c in {AssignmentService} + {ServiceOfWorkstation} ==> Covered(old(rows), gone, c, {service})
      ensures forall r :: r in gone ==> r.table == Assignments || r.table == WorkstationServices
    {
      hide Intact, Removed, Covered, DependsOnOne, Own, Selected;
      ghost var before := rows;
      gone := DeleteReferring(business, AssignmentService, {service});
      ghost var middle := rows;
      OwnLater(before, middle, gone, {service}, business, {service});
      ghost var g := DeleteReferring(business, ServiceOfWorkstation, {service});
      Extend(before, middle, rows, gone, g, {service}, {AssignmentService}, {ServiceOfWorkstation});
      gone := gone + g;
    }

    method DeleteAddons(business: int, service: Ref) returns (ghost gone: set<Ref>)
      requires Intact(rows) && Own(rows, business, {service})
      requires NoneLeft(rows, SnapshotAddon, Referring(rows, business, AddonService, {service}))
      modifies this
      ensures rows == old(rows) - gone && Reduced(old(rows), rows, gone, {service})
              && NoneLeft(rows, AddonService, {service})
      ensures forall r :: r in gone ==> r.table == Addons
    {
      hide Intact, Removed, Covered, DependsOnOne, Own, Selected, Reduced, NoneLeft;
      ghost var before := rows;
      var addons := Referring(rows, business, AddonService, {service});
      AddonsAreFree(rows, business, service);
      Delete(addons);
      AddonsAreGone(before, rows, business, service);
      gone := addons;
    }

    /** The bookings of the service with everything attached, and all holds on the service. */
    method DeleteServiceBookings(business: int, service: Ref, bookings: set<Ref>) returns (ghost gone: set<Ref>)
      requires Intact(rows) && Own(rows, business, {service})
      requires bookings == Referring(rows, business, AppointmentService, {service})
      modifies this
      ensures Reduced(old(rows), rows, gone, {service}) && rows == WithoutBookings(old(rows), gone, bookings)
      ensures forall c :: c in {EntryService, ReservationService, AppointmentService} ==> NoneLeft(rows, c, {service})
      ensures NoneLeft(rows, SnapshotAddon, Referring(rows, business, AddonService, {service}))
    {
      hide Intact, Removed, Covered, DependsOnOne, Own, Selected, Reduced, NoneLeft, Referring, WithoutBookings;
      ghost var before := rows;
      ReferringDepend(rows, business, AppointmentService, {service});
      gone := DeleteServiceHolds(business, service);
      ghost var middle := rows;
      OwnLater(before, middle, gone, {service}, business, {service});
      SameReferring(before, middle, gone, {service}, business, AddonService, {service});
      ghost var g := DeleteAddonSnapshots(business, service);
      Extend(before, middle, rows, gone, g, {service}, {EntryService} + {ReservationService}, {});
      RemovedExactly(before, middle, gone, {service});
      CoveredAcross(before, middle, gone, g, SnapshotAddon, Referring(before, business, AddonService, {service}));
      gone := gone + g;
      middle := rows;
      RemovedExactly(before, middle, gone, {service});
      SelectedLater(before, middle, gone, {service}, business, Appointments, bookings);
      g := DeleteAppointments(business, bookings);
      BookingsDetached(before, middle, rows, gone, g, business, service);
      WithoutBookingsOn(before, middle, rows, gone, g, bookings);
      gone := gone + g;
    }

    /** Windows, assignments, portfolio and add-ons let go of the service. */
    method DetachService(business: int, service: Ref, windows: set<Ref>)
        returns (ghost gone: set<Ref>, ghost middle: Rows)
      requires Intact(rows) && Own(rows, business, {service}) && Own(rows, business, windows)
      requires NoneLeft(rows, SnapshotAddon, Referring(rows, business, AddonService, {service}))
      modifies this
      ensures Reduced(old(rows), rows, gone, {service})
      ensures forall c ::
                (c in ({WindowService} + {AssignmentService, ServiceOfWorkstation})
                      + ({PortfolioService} + {AddonService})) ==>
                NoneLeft(rows, c, {service})
      ensures TableAfter(old(rows), middle, Windows, service, windows)
      ensures TableAfter(middle, rows, PortfolioItems, service, windows)
    {
      hide Intact, Removed, Covered, DependsOnOne, Own, Selected, Reduced, NoneLeft,
        Referring, TableAfter, ClosedWindows, UnlinkedItems;
      ghost var before := rows;
      ClosingKeeps(rows, business, service, windows);
      rows := ClosedWindows(rows, business, service, windows);
      ghost var closed := rows;
      OwnAfter(before, closed, {}, {service}, business, {service});
      gone := DeleteServiceLinks(business, service);
      WindowsDetached(before, closed, rows, gone, business, service, windows);
      middle := rows;
      OwnAfter(before, middle, gone, {service}, business, {service});
      UnlinkingKeeps(middle, business, service, windows);
      rows := UnlinkedItems(rows, business, service);
      ghost var unlinked := rows;
      OwnAfter(middle, unlinked, {}, {service}, business, {service});
      SnapshotsStayGone(before, middle, unlinked, gone, business, service);
      ghost var g := DeleteAddons(business, service);
      CatalogDetached(middle, unlinked, rows, g, business, service, windows);
      ReducedOn(before, middle, rows, gone, g, {service}, {WindowService} + {AssignmentService, ServiceOfWorkstation},
                {PortfolioService} + {AddonService});
      gone := gone + g;
    }

    /** The window, with every row that depends on it and no other. */
    method DeleteWindowWithHistory(business: int, id: int) returns (count: nat)
      requires Intact(rows) && Mine(rows, business, Ref(Windows, id))
      modifies this
      ensures Intact(rows)
      ensures var w := Ref(Windows, id);
              var bookings := Referring(old(rows), business, AppointmentWindow, {w});
              && rows == WithoutBookings(old(rows), Dependents(old(rows), w), bookings)
              && count == |bookings|
      ensures OnlyForgets(old(rows), rows, Ref(Windows, id))
      ensures count == |set a | a in old(rows) && Names(old(rows)[a], AppointmentWindow, Ref(Windows, id))|
    {
      hide Intact, Removed, Covered, DependsOnOne, Unreferenced, Own, Selected, Reduced, NoneLeft, Dependents, Mine,
        Severed, OnlyForgets;
      ghost var before := rows;
      var w := Ref(Windows, id);
      var bookings := Referring(rows, business, AppointmentWindow, {w});
      MineIsOwn(before, business, w);
      ReferringDepend(rows, business, AppointmentWindow, {w});
      ghost var gone := DeleteReferring(business, NotificationWindow, {w});
      ghost var middle := rows;
      OwnLater(before, middle, gone, {w}, business, {w});
      ghost var g := DeleteReferring(business, ReservationWindow, {w});
      Extend(before, middle, rows, gone, g, {w}, {NotificationWindow}, {ReservationWindow});
      gone := gone + g;
      middle := rows;
      SelectedLater(before, middle, gone, {w}, business, Appointments, bookings);
      g := DeleteAppointments(business, bookings);
      WindowIsFree(before, middle, rows, gone, g, business, w);
      ghost var last := rows;
      Delete(ById(rows, business, {w}));
      RootIsGone(before, last, rows, gone + g, business, w);
      AggregateIsExact(before, rows, gone + g + {w}, w);
      WindowResult(before, middle, last, rows, gone, g, business, w, bookings);
      ReducedKeys(before, rows, gone + g + {w}, {w});
      WindowForgets(before, rows, business, w);
      ReferringAll(before, business, AppointmentWindow, w);
      count := |bookings|;
    }

    /** The service, with every row that depends on it and no other. Its windows are closed and
        its portfolio items kept without it. */
    method DeleteServiceWithHistory(business: int, id: int) returns (count: nat)
      requires Intact(rows) && Mine(rows, business, Ref(Services, id))
      modifies this
      ensures Intact(rows)
      ensures var s := Ref(Services, id);
              var bookings := Referring(old(rows), business, AppointmentService, {s});
              && rows == WithoutService(old(rows), Dependents(old(rows), s), s, WindowsOf(old(rows), bookings),
                                        bookings)
              && count == |bookings|
      ensures OnlyLetsGo(old(rows), rows, Ref(Services, id))
      ensures count == |set a | a in old(rows) && Names(old(rows)[a], AppointmentService, Ref(Services, id))|
    {
      hide Intact, Removed, Covered, DependsOnOne, Unreferenced, Own, Selected, Reduced, NoneLeft, Dependents, Mine,
        Severed, RowAfter, TableAfter, WithoutBookings, WithoutService, Referring, WindowsOf, OnlyLetsGo;
      ghost var before := rows;
      var service := Ref(Services, id);
      var bookings := Referring(rows, business, AppointmentService, {service});
      var windows := WindowsOf(rows, bookings);
      MineIsOwn(before, business, service);
      WindowsAreOwn(before, business, service);
      ghost var gone := DeleteServiceBookings(business, service, bookings);
      ghost var middle := rows;
      OwnAfter(before, middle, gone, {service}, business, {service});
      OwnAfter(before, middle, gone, {service}, business, windows);
      ghost var g, detached := DetachService(business, service, windows);
      ghost var last := rows;
      ReducedOn(before, middle, last, gone, g, {service}, {EntryService, ReservationService, AppointmentService},
                ({WindowService} + {AssignmentService, ServiceOfWorkstation}) + ({PortfolioService} + {AddonService}));
      OwnAfter(before, last, gone + g, {service}, business, {service});
      ServiceIsFree(last, business, service);
      Delete(ById(rows, business, {service}));
      RootIsGone(before, last, rows, gone + g, business, service);
      AggregateIsExact(before, rows, gone + g + {service}, service);
      ReducedKeys(before, rows, gone + g + {service}, {service});
      TablesAfter(middle, detached, last, service, windows);
      ServiceResult(before, middle, detached, last, rows, gone, gone + g + {service}, business, service, windows,
                    bookings);
      ServiceLetsGo(before, rows, business, service);
      ReferringAll(before, business, AppointmentService, service);
      count := |bookings|;
    }
  }
}
