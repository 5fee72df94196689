/** The tables of one installation that depend on windows and services: their foreign keys, what
    it means that no key dangles, and which rows are part of which. */
module TenantTables {
  import opened Basics
  import opened Lifecycles

  datatype Table =
    | Appointments | Histories | ReferenceMedia | NotificationJobs | Payments | Refunds | WebhookEvents
    | Reviews | ReviewRevisions | Reservations | AddonSnapshots | Addons | Assignments | WorkstationServices
    | WaitlistEntries | WaitlistNotifications | Windows | PortfolioItems | Services | Workstations

  datatype Ref = Ref(table: Table, id: int)

  /** The foreign keys between these tables; every one is declared ON DELETE RESTRICT. */
  datatype Column =
    | AppointmentWindow | AppointmentService | AppointmentWorkstation | AppointmentDesign | RescheduledFrom
    | HistoryAppointment | MediaAppointment | JobAppointment
    | PaymentAppointment | RefundPayment | EventPayment
    | ReviewAppointment | RevisionReview
    | ReservationWindow | ReservationService | ReservationAppointment
    | SnapshotAppointment | SnapshotAddon | AddonService
    | AssignmentService | WorkstationOfService | ServiceOfWorkstation
    | EntryService | EntryBooked | NotificationEntry | NotificationWindow
    | WindowService | WindowWorkstation | PortfolioService

  /** The table that has the column, and the table it refers to. */
  function Ends(c: Column): (Table, Table) {
    match c
    case AppointmentWindow => (Appointments, Windows)
    case AppointmentService => (Appointments, Services)
    case AppointmentWorkstation => (Appointments, Workstations)
    case AppointmentDesign => (Appointments, PortfolioItems)
    case RescheduledFrom => (Appointments, Appointments)
    case HistoryAppointment => (Histories, Appointments)
    case MediaAppointment => (ReferenceMedia, Appointments)
    case JobAppointment => (NotificationJobs, Appointments)
    case PaymentAppointment => (Payments, Appointments)
    case RefundPayment => (Refunds, Payments)
    case EventPayment => (WebhookEvents, Payments)
    case ReviewAppointment => (Reviews, Appointments)
    case RevisionReview => (ReviewRevisions, Reviews)
    case ReservationWindow => (Reservations, Windows)
    case ReservationService => (Reservations, Services)
    case ReservationAppointment => (Reservations, Appointments)
    case SnapshotAppointment => (AddonSnapshots, Appointments)
    case SnapshotAddon => (AddonSnapshots, Addons)
    case AddonService => (Addons, Services)
    case AssignmentService => (Assignments, Services)
    case WorkstationOfService => (WorkstationServices, Workstations)
    case ServiceOfWorkstation => (WorkstationServices, Services)
    case EntryService => (WaitlistEntries, Services)
    case EntryBooked => (WaitlistEntries, Appointments)
    case NotificationEntry => (WaitlistNotifications, WaitlistEntries)
    case NotificationWindow => (WaitlistNotifications, Windows)
    case WindowService => (Windows, Services)
    case WindowWorkstation => (Windows, Workstations)
    case PortfolioService => (PortfolioItems, Services)
  }

  function TableOf(c: Column): Table { Ends(c).0 }

  function TargetOf(c: Column): Table { Ends(c).1 }

  /** Nothing refers to rows of the table. */
  predicate Leaf(t: Table) {
    t in {Histories, ReferenceMedia, NotificationJobs, Refunds, WebhookEvents, ReviewRevisions, Reservations,
          AddonSnapshots, Assignments, WorkstationServices, WaitlistNotifications}
  }

  /** Two tables have no business column. */
  predicate Scoped(t: Table) { t != Histories && t != ReviewRevisions }

  /** References that a deletion clears; all others make the row part of what it refers to. */
  predicate Cleared(c: Column) {
    c == RescheduledFrom || c == WindowService || c == WindowWorkstation || c == PortfolioService
  }

  /** A row: its references that are not NULL, a window's status, and its other columns. */
  datatype Row = Row(business: Option<int>, refs: map<Column, Ref>, status: Option<WindowStatus>, other: int)

  type Rows = map<Ref, Row>

  // ---------------------------------------------------------------------------
  // Integrity and dependence

  ghost predicate Typed(rows: Rows) {
    && (forall r :: r in rows ==> (rows[r].business.Some? <==> Scoped(r.table)))
    && (forall r, c :: r in rows && c in rows[r].refs ==> r.table == TableOf(c) && rows[r].refs[c].table == TargetOf(c))
  }

  /** Every reference resolves, within one business. */
  ghost predicate Resolved(rows: Rows) {
    forall r, c :: r in rows && c in rows[r].refs ==>
      && rows[r].refs[c] in rows
      && (rows[r].business.Some? && rows[rows[r].refs[c]].business.Some? ==>
            rows[r].business == rows[rows[r].refs[c]].business)
  }

  ghost predicate Intact(rows: Rows) { Typed(rows) && Resolved(rows) }

  /** No RESTRICT key stands in the way of deleting the rows. */
  ghost predicate Unreferenced(rows: Rows, victims: set<Ref>) {
    forall r, c :: r in rows && c in rows[r].refs ==> rows[r].refs[c] !in victims
  }

  ghost predicate PartOf(rows: Rows, r: Ref, p: Ref) {
    r in rows && exists c :: c in rows[r].refs && !Cleared(c) && rows[r].refs[c] == p
  }

  /** A chain of rows in which each is part of the next. */
  ghost predicate Chain(rows: Rows, path: seq<Ref>) {
    |path| > 0 && forall i :: 0 <= i < |path| - 1 ==> PartOf(rows, path[i], path[i + 1])
  }

  ghost predicate Connects(rows: Rows, path: seq<Ref>, r: Ref, root: Ref) {
    Chain(rows, path) && path[0] == r && path[|path| - 1] == root
  }

  ghost predicate Depends(rows: Rows, r: Ref, root: Ref) { exists path :: Connects(rows, path, r, root) }

  ghost predicate DependsOnOne(rows: Rows, r: Ref, roots: set<Ref>) {
    exists x :: x in roots && Depends(rows, r, x)
  }

  /** The aggregate: the root and whatever depends on it. */
  ghost function Dependents(rows: Rows, root: Ref): set<Ref> {
    set r | r in rows && Depends(rows, r, root)
  }

  lemma DependsOnItself(rows: Rows, r: Ref)
    ensures Depends(rows, r, r)
  {
    assert Connects(rows, [r], r, r);
  }

  lemma PartDepends(rows: Rows, r: Ref, p: Ref)
    requires PartOf(rows, r, p)
    ensures Depends(rows, r, p)
  {
    assert Connects(rows, [r, p], r, p);
  }

  lemma DependsOn(rows: Rows, r: Ref, p: Ref, root: Ref)
    requires Depends(rows, r, p) && Depends(rows, p, root)
    ensures Depends(rows, r, root)
  {
    var first :| Connects(rows, first, r, p);
    var second :| Connects(rows, second, p, root);
    var both := first[..|first| - 1] + second;
    forall i | 0 <= i < |both| - 1 ensures PartOf(rows, both[i], both[i + 1]) {
      if i < |first| - 1 {
        assert both[i] == first[i] && both[i + 1] == first[i + 1];
      } else {
        var k := i - (|first| - 1);
        assert both[i] == second[k] && both[i + 1] == second[k + 1];
      }
    }
    assert Connects(rows, both, r, root);
  }

  /** A row that a deletion leaves: its business and all references but those it clears. */
  ghost predicate Kept(before: Row, now: Row) {
    && now.business == before.business
    && (forall c :: c in now.refs ==> c in before.refs && now.refs[c] == before.refs[c])
    && (forall c :: c in before.refs && !Cleared(c) ==> c in now.refs)
  }

  lemma DependedBefore(before: Rows, now: Rows, r: Ref, root: Ref)
    requires forall x :: x in now ==> x in before && Kept(before[x], now[x])
    requires Depends(now, r, root)
    ensures Depends(before, r, root)
  {
    var path :| Connects(now, path, r, root);
    forall i | 0 <= i < |path| - 1 ensures PartOf(before, path[i], path[i + 1]) {
      assert PartOf(now, path[i], path[i + 1]);
    }
    assert Connects(before, path, r, root);
  }
}
