# Verification of the salon booking CRM

This project models the difficult logic of the booking CRM and proves properties of it with
Dafny 4.11: the projection of a master's schedule onto bookable slots, the calendar as a system
of concurrent transactions, the Redis rate limiter, the delivery queues with leases, the two
destructive multi-table operations, the refund ledger and the filter for welcome texts.
`dafny verify dfyconfig.toml` checks everything.

## How the model is built

* **Time.** Instants, wall readings and offsets are integers in microseconds, dates are day
  ordinals. A time zone is any finite list of offset transitions; the two directions of the
  conversion and `fold` follow PEP 495 ("In the DST Fold", "Mind the DST Gap") as Python's
  `zoneinfo` implements them. `TimeZones.Regular` is what the threshold lists of real zones
  satisfy: one transition's disturbance of the wall clock is over before the next one's begins.
* **Tables** are maps from ids to rows. A column that an operation never names is kept in one
  field that stands for all of them, so that "unchanged" is a statement about every column.
* **Concurrency** is a step relation over committed rows and open transactions. Row locks,
  `SKIP LOCKED` and advisory locks are sets of locked things; a step that would wait is not
  enabled. Main results speak about every state of every run.
* **Code that changes state** is a class whose methods are proved against functions of the old
  state (`Reassignment.Calendar`, `HardDelete.Store`, `Anonymisation.Database`, `RateLimit.Key`,
  `LeaseQueue.Queue`, `Refunds.Store`, `Welcome.Sanitizer`); loops are loops with invariants.
  The properties are then proved about those functions. What the functions say is told a second
  time in the columns of the rows before and after, without naming them (`HardDelete.OnlyLetsGo`,
  `Anonymisation.Told`, `Reassignment.Told`, `ScheduleProjection.Works`, `DayProjection.Told`,
  `Workstations.Fit`), and the methods promise that too.

## Modules

| file | subject |
|---|---|
| `Basics.dfy`, `Sorting.dfy`, `Lifecycles.dfy` | options and results, stable sorting, the status tables |
| `TimeZones.dfy`, `LocalDays.dfy` | local clocks, day bounds |
| `MinuteRanges.dfy`, `Boundaries.dfy`, `ScheduleProjection.dfy`, `WorkingTime.dfy`, `RepeatedHour.dfy`, `DayProjection.dfy` | from rules to the slots of a day |
| `Windows.dfy`, `Workstations.dfy`, `Reservations.dfy` | concurrent creation of windows, bookings and holds |
| `Reassignment.dfy` | moving all future bookings of a master |
| `RateLimit.dfy` | the sliding-window limiter |
| `LeaseQueue.dfy` | reminders, broadcast recipients and waitlist notifications |
| `TenantTables.dfy`, `HardDelete.dfy` | foreign keys, deleting a window or a service |
| `Anonymisation.dfy` | anonymising a client |
| `Refunds.dfy` | the refund ledger |
| `Welcome.dfy` | the HTML filter |

## What turned out false, and exactly when it holds

* Slots can run through a break, because ends resolve late and starts early
  (`RepeatedHour.RepeatedBoundaryAdmitsABreak`). A range reads as itself if and only if the clock
  does not fall back to the minute before it after its start, and does not show the reading of
  its end before its end (`Boundaries.ReadsWithinIff`, over the slots of every service
  `WorkingTime.SlotsStayInRangeIff`). No slot of any service runs through a break if and only if
  no minute of a break is shown after the start of a range that follows it or before the end of
  a range in front of it (`WorkingTime.SlotsMissBreaksIff`). Both conditions are decided by the
  first and the last instant of single readings. A day with a boundary that does not resolve
  fails as a whole and offers no slot.
* `utc_day_bounds` are the instants at which local dates begin if and only if the local date
  never moves back and the clock reaches every midnight, that is, shows it or jumps exactly
  there (`LocalDays.BoundsAreExactIff`; a clock that jumps over midnight from before it is in
  `LocalDays.SkippedMidnightMovesTheBound`).
* The docstring of `anonymize_client_data` says that all statements are scoped to the tenant.
  The code unbinds former staff records in every business but blanks profiles in one only: a
  profile ends up blank if and only if it lies in this business or was blank before, and no
  later run can find the others (`Anonymisation.ProfileIsBlankIff`). The order matters too:
  unbinding first would blank no profile at all (`Anonymisation.UnbindingFirstLosesTheProfiles`).
  `Anonymisation.ProfileElsewhereStays` is a published profile that keeps its name.
* Repeating a provider's answer to a settled refund is accepted, moves no money, but may
  overwrite the payment's "refund pending" (`Refunds.RepeatedAnswerForgets`): after an accepted
  repetition the status is right if and only if nothing else was pending
  (`Refunds.RepeatedAnswerTellsIff`), and throughout a run if and only if that is so at every
  accepted repetition (`Refunds.RunTellsIff`).
* Reconciling a paid hold books its window, and reassigning bookings opens the old one, without
  looking at the status it has. A window that was closed meanwhile, as deleting a service does
  with every window it ever used, then becomes active beside one created in its place
  (`Windows.ReconciledWindowOverlaps`), and only the exclusion constraint on windows stands in
  the way. Cap and gap hold throughout a run if and only if every window that is reinstated so is
  still active or fits beside the active ones, and every window that is committed still fits
  beside them (`Windows.RunKeepsCapIff`). The second half follows if a reinstated window also
  fits beside what open transactions have checked (`Windows.AdmittedRunFits`); that it does is
  exactly what keeps the next commits within cap and gap (`Windows.AdmitsIff`).
* A webhook whose refund result the payment's status forbids fails, but its handler commits, and
  by then the refund and the amount paid back have been written without the payment's status
  (`Refunds.RefusedIsHalfWritten`). This happens if and only if the answer differs from what the
  refund says already (`Refunds.RefusedIsHalfWrittenIff`), and never while statuses tell
  (`Refunds.RefusedWritesNothing`). Money is conserved all the same.
* Moving a master's bookings looks reservation rows up in a dictionary by booking. No database
  constraint forbids two rows for one booking, although `ReservationService.create`, which wants
  an open window and a pending booking, makes none; then one of them, possibly the live hold, stays
  behind on a reopened window (`Reassignment.SecondRowIsLeftBehind`). The holds stay linked if
  and only if the dictionary got every live hold of a moved booking
  (`Reassignment.MovedIsConsistent`), and it does so in whatever order the rows are listed if
  and only if each such hold is its booking's only row (`Reassignment.EveryLookupTakesIff`).
  Bookings and windows are right in either case.

## Model

| member | source | states |
|---|---|---|
| TimeZones.ValidUtcInstantsExact | app/domain/schedule_projection.py:367-375 | the instants found by trying both folds are exactly those at which the clock shows the wall time, ascending: none in a gap, two exactly when the reading is repeated |
| TimeZones.ResolveBoundary | app/domain/schedule_projection.py:346-364 | the loop over 181 minutes is the recursive search for the first existing wall minute |
| TimeZones.ResolveExact | app/domain/schedule_projection.py:346-364 | the result is the earliest or latest instant of the first existing minute at or after the boundary; it fails only if none of the 181 exists |
| TimeZones.ResolveMonotone | app/domain/schedule_projection.py:234-235 | later minutes of a day resolve no earlier, whichever side each prefers, unless the first lands on a repeated reading |
| TimeZones.UnrepeatedOrders | app/domain/schedule_projection.py:346-375 | a wall reading shown only once orders the whole time line |
| TimeZones.EarliestOrders | app/domain/schedule_projection.py:346-375 | before the earliest instant of a reading the clock shows less |
| TimeZones.LatestOrders | app/domain/schedule_projection.py:346-375 | after the latest instant of a reading the clock shows more |
| TimeZones.DropIsShownAgain | app/domain/schedule_projection.py:346-375 | after the clock has gone back it shows every reading in between again |
| TimeZones.FoldMeansAgain | app/domain/schedule_projection.py:367-375 | fold 1 marks exactly the readings that have been shown before |
| MinuteRanges.EnsureRangesDoNotOverlap | app/domain/schedule_projection.py:339-343 | the adjacent-pair check on the sorted list accepts exactly the pairwise disjoint lists |
| MinuteRanges.CutOut | app/domain/schedule_projection.py:300-308 | the inner loop removes one exclusion from every source |
| MinuteRanges.SubtractRanges | app/domain/schedule_projection.py:294-310 | the nested loops compute the subtraction of sorted lists |
| MinuteRanges.SubtractIsDifference | app/domain/schedule_projection.py:294-310 | minute by minute, subtraction is set difference |
| MinuteRanges.SubtractShape | app/domain/schedule_projection.py:294-310 | from disjoint sources the result is ascending, disjoint and has at most sources plus exclusions ranges |
| MinuteRanges.ExclusionOrderIrrelevant | app/domain/schedule_projection.py:299 | exclusions that are permutations of each other leave the same ranges, sorted or not |
| MinuteRanges.SubtractPermuted | app/domain/schedule_projection.py:294-310 | subtraction depends neither on the order of the sources nor on that of the exclusions |
| Boundaries.FirstShown | app/domain/schedule_projection.py:346-364 | a resolved boundary is a whole minute, and the clock never shows anything from the boundary asked for up to it |
| Boundaries.ReadsWithinIff | app/domain/schedule_projection.py:234-235 | between its resolved boundaries a range reads as itself iff the minute before it is not shown after its start and its last reading not before its end |
| Boundaries.MissesIff | app/domain/schedule_projection.py:234-235 | a range never shows a given minute outside it iff that minute is not shown after its start (or before its end) |
| ScheduleProjection.EnsureWeeklyRulesDoNotOverlap | app/domain/schedule_projection.py:313-318 | grouping and checking accepts exactly the rule sets without an overlap of one kind on one weekday |
| ScheduleProjection.EffectiveWorkRanges | app/domain/schedule_projection.py:262-291 | a minute is left exactly if, by the rows of rules and exceptions, no all-day exception takes the date, a working window of the date covers it or, only if there is none, a weekly work rule does, and no weekly or one-off break covers it; from disjoint hours the ranges ascend |
| ScheduleProjection.WorksIff | app/domain/schedule_projection.py:262-291 | the same of the specification, minute by minute |
| Basics.WeekdaysGoRound | app/domain/schedule_projection.py:282 | weekdays go round by seven from Monday, day ordinal 1 |
| ScheduleProjection.ProjectRange | app/domain/schedule_projection.py:236-258 | the cursor loop over one resolved range |
| ScheduleProjection.ProjectStaffDay | app/domain/schedule_projection.py:214-259 | one master's day, or the error of the first boundary that does not resolve |
| ScheduleProjection.RangeSlotsExact | app/domain/schedule_projection.py:236-258 | the loop offers exactly the grid instants whose duration fits, after now, not before the pause end, meeting no busy period |
| ScheduleProjection.RangeSlotsAscend | app/domain/schedule_projection.py:236-258 | each of them once, in ascending order, within the range |
| WorkingTime.StaffDayExact | app/domain/schedule_projection.py:214-259 | a master's day fails exactly when a boundary of an effective range does not resolve, and else offers exactly the slots on the grids of its ranges that fit, lie after now and the pause and miss every busy period, with the master's name and the local readings of both ends |
| WorkingTime.SlotsAreWorkingTime | app/domain/schedule_projection.py:214-310 | with clear boundaries, at every instant of every slot the local clock shows the requested date and a minute of its working hours that no break covers |
| WorkingTime.SlotsStayInRangeIff | app/domain/schedule_projection.py:234-259 | no slot of any service, at any time, with any step reads outside its range iff the boundaries of the day are clear or the day fails at one that does not resolve |
| WorkingTime.MinuteIsMissedIff | app/domain/schedule_projection.py:214-310 | a minute that is no working time is shown in no slot of any service iff every range of the day misses it or the day fails |
| WorkingTime.SlotsMissBreaksIff | app/domain/schedule_projection.py:214-310 | no slot of any service runs through a break iff the ranges of the day miss the minutes of its breaks or the day fails |
| WorkingTime.ClearMissesBreaks | app/domain/schedule_projection.py:234-235 | clear boundaries keep every range off the breaks |
| WorkingTime.NoRepeatedHourIsClear | app/domain/schedule_projection.py:346-364 | a day without a repeated hour has clear boundaries |
| WorkingTime.SlotsAreFree | app/domain/schedule_projection.py:236-258 | every slot lies after now and the pause, lasts the service's duration and meets no busy instant |
| WorkingTime.AllDayExceptionClosesTheDay | app/domain/schedule_projection.py:265-269 | a date with an all-day exception has no slot |
| WorkingTime.BreakOrderIrrelevant | app/domain/schedule_projection.py:282-291 | the ranges of a date depend on its hours and breaks as multisets: not on their order, nor on which breaks are weekly and which one-off |
| RepeatedHour.RepeatedBoundaryAdmitsABreak | app/domain/schedule_projection.py:234-235 | a slot that runs through a break on a day with a repeated hour |
| DayProjection.ProjectStaff | app/domain/schedule_projection.py:185-204 | the loop over masters and the sort |
| DayProjection.DayIsSortedPermutation | app/domain/schedule_projection.py:164-212 | the day is the sorted permutation of all eligible masters' slots |
| DayProjection.Project | app/domain/schedule_projection.py:136-212 | by the request and the masters' columns: the first test that fails gives the error; else exactly what bookable masters (the one asked for) offer, in the order of start, sort order, id and end, the bookable ids in their order, and whether masters can be chosen |
| DayProjection.ProjectDayIsTold | app/domain/schedule_projection.py:136-212 | the same of the specification |
| DayProjection.StringLeqIff | app/domain/schedule_projection.py:158-165 | names are compared by the first place at which they differ |
| DayProjection.DaySlotsAreSound | app/domain/schedule_projection.py:136-310 | every slot of a projected day belongs to a bookable master (the one asked for), lies after now and the pause, meets no busy instant, and with clear boundaries reads as that master's working time throughout |
| DayProjection.OneMasterIsTheFilteredDay | app/domain/schedule_projection.py:179-204 | asking for one master gives exactly the full projection filtered to that master, in order; anyone else is refused |
| LocalDays.BoundsAreExactIff | app/domain/availability.py:48-54 | day bounds are where dates begin iff dates never move back and every midnight is reached |
| LocalDays.DayBoundsTile | app/domain/availability.py:48-54 | consecutive bounds tile the time line: an instant lies in the bounds of its own local date only |
| LocalDays.WindowStaysInItsDay | app/domain/availability.py:33-45 | a window whose end is checked to fall on its date lies within the bounds queried for that date |
| LocalDays.WindowReadsAsAsked | app/domain/availability.py:33-45 | a window starts and ends at the first instants that show its local start and the time its duration later; past a time that is not shown |
| LocalDays.OverlapSharesTheDate | app/domain/availability.py:76-78 | intervals that each stay within one date overlap only on the same date |
| LocalDays.SkippedMidnightMovesTheBound | app/domain/availability.py:48-54 | a zone whose bound is not where the date begins |
| Windows.ValidateCapacityAndSpacing | app/domain/availability.py:89-115 | accepts exactly below the cap and with every existing interval at its distance; else the cap, or the first offender's problem |
| Windows.SpacingIsApart | app/domain/availability.py:105-115 | the three tests together say: disjoint, with at least the gap between |
| Windows.CalendarAcceptsIff | app/domain/availability.py:66-86 | the calendar accepts exactly windows of positive length, ahead, ending on their date within the horizon, and on a weekend day only if allowed; each error names its reason |
| Windows.StepKeepsInvIff | app/services/availability_service.py:378-446 | every step keeps cap, gap and what pending transactions have checked, iff it does not reinstate a window that is inactive and no longer fits |
| Windows.ReinstateKeepsInvIff | app/services/reservation_service.py:224 | making a window active without looking at its status keeps cap, gap and pending checks iff it was active or fits beside all of them |
| Windows.RunKeepsInvIff | app/repositories/window_repository.py:33-73 | cap, gap and pending checks hold in every state of a run iff every reinstated window was active or fitted beside rows and pending checks |
| Windows.ReinstateKeepsCapIff | app/services/reservation_service.py:224 | making a window active without looking at its status keeps cap and gap iff it was active or fits beside the active rows alone |
| Windows.StepKeepsCapIff | app/services/availability_service.py:378-446 | a step keeps cap and gap iff what it reinstates was active or fits beside the active rows, and what it commits fits beside them |
| Windows.RunKeepsCapIff | app/repositories/window_repository.py:33-73 | every state of a run is within cap and gap iff every reinstated window was active or fitted beside the active rows and every committed one fitted beside them |
| Windows.AdmittedRunFits | app/services/availability_service.py:425-445 | if reinstated windows also fit beside pending checks, what was validated under the lock still fits at its commit |
| Windows.AdmitsIff | app/services/reservation_service.py:224 | a reinstated window fits beside rows and pending checks iff cap and gap hold after the step and after every commit then enabled |
| Windows.EveryRunIsSpaced | app/repositories/window_repository.py:33-73 | in every run whose reinstated windows were active or fitted beside the active ones, and whose committed windows fitted, a master's open, reserved and booked windows of one local date are at most the cap, the minimum gap in minutes apart, and none overlap across dates |
| Windows.ReconciledWindowOverlaps | app/services/reservation_service.py:208-224 | a run in which reconciling a hold makes two windows of one master active at the same time |
| Workstations.AllocateAvailable | app/repositories/workstation_repository.py:148-188 | the station of least sort order and id among those in use, not archived, enabled for the service, and with no occupying booking but the excluded one in the interval; none exactly if there is no such station |
| Workstations.MoveNeverOccupies | app/domain/appointments.py:27-94 | no allowed move leads into the occupying statuses from outside |
| Lifecycles.AppointmentCameFrom | app/domain/appointments.py:27-94 | the transition table of bookings told by where a booking can have come from |
| Lifecycles.InactiveStatuses | app/domain/appointments.py:18-25 | the statuses that take no time, and those that are no hold |
| Lifecycles.ScheduleIsLeftForGood | app/domain/appointments.py:18-101 | over any history of allowed moves a booking that left the schedule never re-enters it |
| Workstations.StepKeepsInv | app/repositories/workstation_repository.py:128-188 | every step of bookings and reschedules under the date lock keeps stations free of double use, and allocations valid until commit |
| Workstations.EveryRunIsExclusive | alembic/versions/20260814_0027_v041_dynamic_window_resources.py:55-71 | in every interleaving the exclusion constraint on workstations never has to fire |
| Workstations.NeverMoreThanWorkstations | app/repositories/workstation_repository.py:148-188 | at no instant of any run do occupying appointments outnumber workstations |
| Workstations.EveryAllocationFitted | app/repositories/workstation_repository.py:148-188 | in every run a station is allocated and booked only if at the allocation it was in use, not archived, enabled for the service, and free |
| Workstations.RescheduleIsAtomic | app/services/reschedule_service.py:275-330 | the old booking leaves the schedule in the same commit in which the new one enters, and nothing else changes |
| Reassignment.Calendar.SelectFuture | app/repositories/staff_repository.py:158-170 | exactly the source's bookings of the business from now on with one of the four occupying statuses, once each, by start and id |
| Reassignment.Calendar.FindTargets | app/repositories/staff_repository.py:173-229 | both preconditions: each failing one is reported with nothing changed |
| Reassignment.Calendar.MoveAll | app/repositories/staff_repository.py:230-257 | the loop over the locked bookings |
| Reassignment.Calendar.MoveOne | app/repositories/staff_repository.py:231-256 | one turn: old window open, new window held, booking and reservation moved |
| Reassignment.Calendar.ReassignFutureAppointments | app/repositories/staff_repository.py:148-258 | keeps every constraint on bookings and windows, and the whole calendar invariant unless a moved live hold has a second row. In columns: each error exactly for a due booking whose service the target does not offer, or which has no open target window of its times, with nothing changed; else every due booking, and no other row but its windows and reservation, goes to the target, and the count is of those |
| Reassignment.Calendar.LookUpReservations | app/repositories/staff_repository.py:219-229 | the dictionary holds a row of the business for every booking that has one, and no other |
| Reassignment.OpenWindowsAreExact | app/repositories/staff_repository.py:199-217 | a booking is placed exactly when the target has an open window of just its interval |
| Reassignment.PlanIsInjective | app/repositories/staff_repository.py:213-251 | bookings get distinct windows, and none that another one leaves |
| Reassignment.TargetIsAnother | app/repositories/staff_repository.py:148-258 | a move that finds windows for its bookings goes to another master |
| Reassignment.MoveSomeIsMoved | app/repositories/staff_repository.py:230-257 | the turns of the loop together move exactly the selected bookings, their windows and reservations, and change no other row |
| Reassignment.OutcomeIsTold | app/repositories/staff_repository.py:148-258 | the specification of the operation says the same as the columns before and after |
| Reassignment.MovedIsConsistent | alembic/versions/20260810_0012_v040_scope_appointments_catalog.py:174-184 | the move keeps window overlap, booked-window uniqueness and the links of bookings to windows, and the links of live holds exactly when the lookup found each of them |
| Reassignment.EveryLookupTakesIff | app/repositories/staff_repository.py:219-256 | every order of the rows finds all live holds if and only if each is the only row of its booking |
| Reassignment.ConsistentBookingsDisjoint | alembic/versions/20260810_0012_v040_scope_appointments_catalog.py:270-279 | the calendar invariant implies the exclusion constraint on bookings |
| Reassignment.SecondRowIsLeftBehind | app/repositories/staff_repository.py:219-256 | with two reservation rows for one booking the live hold can stay on the reopened window |
| Reservations.MovesDescend | app/domain/reservations.py:48-72 | every real status change of a hold lowers its rank, and none revives it |
| Reservations.StepKeepsInv | app/services/reservation_service.py:63-275 | every step of concurrent transactions, moving a hold to a vacant window included, keeps locks exclusive, writes locked, and one live hold per window in every view |
| Reservations.EveryRunHoldsAWindowOnce | alembic/versions/20260811_0016_v041_manual_prepayments.py:145-152 | in every interleaving the unique index on live holds never has to fire |
| Reservations.AtMostTwoChanges | app/domain/reservations.py:48-72 | in every run a hold changes status at most twice |
| Reservations.ReviewedIsNeverClaimed | app/repositories/reservation_repository.py:92-109 | a hold that reached review or is over is in no later batch of expired holds |
| Reservations.BatchIsExpired | app/repositories/reservation_repository.py:92-109 | a batch holds active holds whose time is up, by expiry and id, and all that are not locked if there is room |
| Lifecycles.ReservationCameFrom | app/domain/reservations.py:48-63 | the transition table of holds told by where a hold can have come from |
| Reservations.NobodySharesAHold | app/repositories/reservation_repository.py:92-109 | two open transactions never have the same hold |
| Reservations.ExpiredOnce | app/services/reservation_service.py:193-275 | once an expiry is committed, no worker claims the hold again |
| RateLimit.Key.CleanUp | app/security/rate_limit.py:19 | key expiry and score removal leave exactly the live entries |
| RateLimit.Key.Consume | app/security/rate_limit.py:12-39 | the script answers as the limiter without key expiry does after the same calls, and goes on alike; the admissions of all calls made on the key stay within the limit in every window |
| RateLimit.Key.Inspect | app/security/rate_limit.py:41-64 | the same for the inspect script, which changes no live entry and admits nothing, now or later |
| RateLimit.Key.ExpiryLosesNothing | app/security/rate_limit.py:23 | the key's expiry never hides a live entry |
| RateLimit.InspectPredictsConsume | app/security/rate_limit.py:41-64 | inspect allows exactly when a fresh request at that moment would be let in |
| RateLimit.ReplyTellsWhatRemains | app/security/rate_limit.py:22-39 | the remaining count is the limit less the entries after the call, and only a denied call has a wait |
| RateLimit.RemainingIsExact | app/security/rate_limit.py:22-39 | that many further fresh requests at the same moment get in, and no more |
| RateLimit.HintCoversTheWait | app/security/rate_limit.py:171-181 | every reply is a valid decision and the hint in seconds is the shortest that is never too short |
| RateLimit.ToDecisionIs | app/security/rate_limit.py:171-181 | anything but three integers, a flag and two that are not negative, is refused |
| RateLimit.LiveCountsAdmissions | app/security/rate_limit.py:12-39 | after any trace the live entries are as many as the admissions of the last window |
| RateLimit.EveryWindowIsWithinTheLimit | app/security/rate_limit.py:95-122 | in every trace on a running clock at most `limit` fresh requests are admitted in any half-open window |
| RateLimit.ReplayIsFree | app/security/rate_limit.py:22-25 | replaying a live request id is allowed and consumes nothing |
| RateLimit.RetryIsExact | app/security/rate_limit.py:26-34 | if nobody takes the slot first, every fresh request before the wait is over is denied and the next one allowed |
| RateLimit.DeniedCallersWaitExactly | app/security/rate_limit.py:26-34 | the same for the hint given at the end of any trace |
| LeaseQueue.Queue.SelectDue | app/repositories/notification_repository.py:54-73 | a prefix of the eligible unlocked rows by availability and id, full or complete |
| LeaseQueue.Queue.ClaimDue | app/repositories/waitlist_repository.py:225-257 | exactly the batch is marked as processed by this worker, with one more attempt |
| LeaseQueue.Queue.CancelUnsent | app/repositories/broadcast_repository.py:315-341 | exactly the open rows of the group are cancelled (broadcast recipients skipped, with the reason) and counted |
| LeaseQueue.Queue.CancelUnsentByType | app/repositories/notification_repository.py:110-121 | exactly the open notifications of the type are cancelled and counted |
| LeaseQueue.BatchIsDetermined | app/repositories/broadcast_repository.py:264-306 | the batch is determined by the queue, the rows that are passed over and the clock |
| LeaseQueue.BatchOrder | app/repositories/notification_repository.py:70-72 | a batch is in the order of availability and id, and what lacks room comes later |
| LeaseQueue.DueIs | app/repositories/waitlist_repository.py:235-247 | when a row of each queue and status is due, by its columns |
| LeaseQueue.AbandonedIsTakenOver | app/repositories/notification_repository.py:62-67 | once its lease is over an abandoned row is in every batch that has room and does not pass over it |
| LeaseQueue.WaitingIsClaimed | app/repositories/broadcast_repository.py:282-291 | the same for a pending row or a retry that is available |
| LeaseQueue.StepKeepsInv | app/repositories/notification_repository.py:44-81 | every step keeps held rows disjoint between workers, for broadcasts even of different campaigns, and still due |
| LeaseQueue.ConcurrentClaimsAreDisjoint | app/repositories/notification_repository.py:44-81 | at every moment of every run workers hold disjoint rows, of broadcasts even rows of different campaigns |
| LeaseQueue.AttemptsCountClaims | app/repositories/notification_repository.py:75-79 | a row's attempts count its claims since it was last reset, whether it was there at first or is enqueued during the run |
| LeaseQueue.TerminalIsNeverClaimed | app/repositories/broadcast_repository.py:264-341 | a sent row, and any other closed row that no change of settings resets, stays closed and is never claimed again |
| LeaseQueue.LeasesAreRespected | app/repositories/waitlist_repository.py:225-257 | two claims of a row are a lease apart, strictly more for the waitlist, unless a worker or a change of settings put it back between them; then the second waits for the moment it was last put back for |
| TenantTables.DependsOn | alembic/versions/20260722_0001_initial_schema.py:229-258 | dependence along foreign keys is transitive |
| HardDelete.AggregateIsExact | app/repositories/hard_delete_repository.py:40-175 | if the tables are intact afterwards, what is gone is the root and everything that depends on it |
| HardDelete.Store.Delete | alembic/versions/20260722_0001_initial_schema.py:229-258 | a DELETE whose precondition is that no RESTRICT key refers to its rows keeps the tables intact |
| HardDelete.Store.DeletePayments | app/repositories/hard_delete_repository.py:190-219 | payments of the bookings with refunds and events, none left |
| HardDelete.Store.DeleteReviews | app/repositories/hard_delete_repository.py:221-240 | reviews of the bookings with revisions, none left |
| HardDelete.Store.DeleteAttached | app/repositories/hard_delete_repository.py:254-271 | the loop over scoped models and the history: nothing of it refers to the bookings any more |
| HardDelete.Store.DeleteWaitlistEntries | app/repositories/hard_delete_repository.py:286-300 | entries with their notifications |
| HardDelete.Store.DeleteAppointments | app/repositories/hard_delete_repository.py:186-284 | the bookings and their dependents go, other bookings forget they were moved from one of them, all else is unchanged |
| HardDelete.Store.DeleteWindowWithHistory | app/repositories/hard_delete_repository.py:40-63 | no statement violates a key; exactly the window's dependents are gone; every other row keeps all columns, but a booking forgets a deleted one it was moved from; the count is of the bookings that named the window |
| HardDelete.Store.DeleteServiceWithHistory | app/repositories/hard_delete_repository.py:65-175 | the same for a service; windows made for it or used by its bookings are closed without service and workstation, portfolio items lose the link to it, and no other column of any row changes |
| HardDelete.ServiceLetsGo | app/repositories/hard_delete_repository.py:123-160 | what the specification leaves, told column by column of the tables before and after |
| Anonymisation.Database.ClearTexts | app/repositories/privacy_repository.py:406-460 | notes, comments, history reasons, revisions and reviews, with their counts |
| Anonymisation.Database.ClearFiles | app/repositories/privacy_repository.py:461-502 | no reference file and no receipt of the subject is left in the business; the count is of those there were |
| Anonymisation.Database.StopDeliveries | app/repositories/privacy_repository.py:503-573 | nothing to the subject is unsent or waiting any more; the count is of what was unsent |
| Anonymisation.Database.RemoveTraces | app/repositories/privacy_repository.py:574-643 | tags, attribution, links, profiles, invitations and staff records in that order |
| Anonymisation.Database.AnonymizeClientData | app/repositories/privacy_repository.py:338-674 | a subject is refused, with nothing changed, exactly unless it is this client and user of the business; else every row of every table and every count is as the columns of the tables before tell |
| Anonymisation.NothingPersonalIsLeft | app/repositories/privacy_repository.py:338-674 | afterwards no text, file, pending delivery, tag, former staff record, profile or contact of the subject is left in the business |
| Anonymisation.AnonymisedIsErased | app/repositories/privacy_repository.py:338-674 | the new value of every written column of every row, and no other change, from the columns before |
| Anonymisation.AnonymisedIsTold | app/repositories/privacy_repository.py:338-674 | the same together with all reported counts |
| Anonymisation.AmountsAreKept | app/repositories/privacy_repository.py:345-350 | bookings, payments and refunds keep every column but comments and receipt |
| Anonymisation.OthersAreKept | app/repositories/privacy_repository.py:345-350 | in every table a row that is not the subject's own, or has nothing to clear, is unchanged, and no row is new |
| Anonymisation.MediaCheckIsKept | alembic/versions/20260724_0010_v031_reference_retention.py:56-61 | media rows keep identifiers or a deletion time, and a deletion time once set |
| Anonymisation.TelegramIdsStayUniqueIff | app/repositories/privacy_repository.py:646 | Telegram ids stay unique iff nobody else has the tombstone |
| Anonymisation.IdentitiesAreKept | app/repositories/privacy_repository.py:646 | with positive Telegram ids and 62-bit user ids they stay unique however many are anonymised |
| Anonymisation.SecondRunOnlyRestamps | app/repositories/privacy_repository.py:338-674 | a second run changes nothing but the listed timestamps |
| Anonymisation.SecondRunFindsNothing | app/repositories/privacy_repository.py:664-674 | a second run counts no file and no delivery, and the same retained rows |
| Anonymisation.UnbindingFirstLosesTheProfiles | app/repositories/privacy_repository.py:587-643 | with the staff records unbound first, no profile or link would be found |
| Anonymisation.ProfileIsBlankIff | app/repositories/privacy_repository.py:587-643 | a former staff record's profile is blank afterwards iff it lies in this business or was blank |
| Anonymisation.ProfileElsewhereStays | app/repositories/privacy_repository.py:587-643 | a published profile in another business that keeps its name and that a run for its client there does not find |
| Refunds.Store.SumPendingRefunds | app/repositories/payment_repository.py:365-376 | the sum of the payment's pending refunds |
| Refunds.Store.AddRefundIfAbsent | app/repositories/payment_repository.py:282-327 | inserts exactly when the key is new and returns the row of the key |
| Refunds.Store.EnsureRefund | app/services/payment_coordinator.py:639-697 | the request with all its refusals, keeping the ledger sound |
| Refunds.RequestAcceptedIff | app/services/payment_service.py:252-282 | a request is accepted iff it repeats the one of its key, or the payment is paid and has that much left neither paid back nor under way, all of it unless parts may be; and what it then writes |
| Refunds.AnswerAcceptedIff | app/services/payment_service.py:386-430 | an answer is accepted iff it fits the refund, does not overdraw and moves the payment as allowed; and what it then writes |
| Refunds.FailureIs | app/services/payment_service.py:343-362 | a refund that could not be submitted fails, and its payment goes back, iff it was under way and is not to be retried |
| Lifecycles.PaymentCameFrom | app/domain/payments.py:51-88 | the transition table of payments told by where one can have come from |
| Refunds.Store.ApplyAuthoritativeRefund | app/services/payment_service.py:386-430 | the provider's answer written in place; on an error exactly what had been written by then; the overdraft error never occurs |
| Refunds.Store.ApplyRefundResult | app/services/payment_coordinator.py:764-800 | the answer to the program's own question: an error rolls everything back |
| Refunds.Store.ApplyRefundWebhookResult | app/services/payment_coordinator.py:287-372 | the answer of a webhook: an error commits what had been written, which is nothing of a payment if statuses told before |
| Refunds.WrittenKeepsValid | app/services/payment_service.py:386-430 | accepted or not, whatever the statements have written conserves money |
| Refunds.RefusedIsHalfWrittenIff | app/services/payment_service.py:405-425 | an answer that the payment's status forbids has been written in part iff it differs from the refund's status |
| Refunds.RefusedWritesNothing | app/services/payment_service.py:405-425 | while statuses tell no differing answer is forbidden |
| Refunds.RefusedIsHalfWritten | app/services/payment_coordinator.py:314-323 | a failing webhook that leaves a refund succeeded and the amount paid back on a cancelled payment |
| Refunds.EveryRunConservesMoney | app/services/payment_service.py:252-430 | in every run, webhooks that fail half-way included, what was paid back is the sum of succeeded refunds, and with the pending ones never exceeds the payment |
| Refunds.NeverExceeds | app/services/payment_service.py:414-418 | the last check of the payment's amount never fires |
| Refunds.OnlyNewKeysAdd | app/repositories/payment_repository.py:282-327 | only a new key adds to the amounts of all statuses; replays and settlements move them |
| Refunds.RunCountsEveryKeyOnce | app/repositories/payment_repository.py:282-327 | over any run the amounts by status sum to the amounts of the distinct accepted keys |
| Refunds.SettledForGood | app/domain/payments.py:90-115 | a refund leaves the pending sum at most once, for good |
| Refunds.ReplaysMoveNoMoney | app/services/payment_coordinator.py:649-658 | a known key and a repeated answer move no money |
| Refunds.AnswerKeepsStatus | app/services/payment_service.py:408-430 | an answer to a pending refund leaves a payment status that tells the truth |
| Refunds.RepeatedAnswerTellsIff | app/services/payment_service.py:559-578 | after an accepted repetition the status tells the truth iff nothing else was pending |
| Refunds.RepeatedAnswerForgets | app/services/payment_service.py:559-578 | an accepted repetition after which the payment no longer tells that a refund is under way |
| Refunds.StepTellsIff | app/services/payment_service.py:252-430 | a step leaves every status truthful iff it is no accepted repetition while something is pending |
| Refunds.RunTellsIff | app/services/payment_service.py:252-430 | throughout a run every status is truthful iff no step is such a repetition |
| Welcome.Sanitizer.Handle | app/domain/welcome.py:28-60 | each event is refused unchanged or writes its token and follows the nesting |
| Welcome.Sanitizer.HandleStartTag | app/domain/welcome.py:28-44 | only allowed tags without attributes and links to safe URLs open |
| Welcome.Sanitizer.HandleEndTag | app/domain/welcome.py:46-51 | only the innermost open tag closes |
| Welcome.Sanitize | app/domain/welcome.py:62-85 | feeding and closing accepts exactly the streams of accepted, properly closed events and returns their rendering; else the first refusal, or that a tag is not closed |
| Welcome.AcceptedIffNested | app/domain/welcome.py:46-65 | the stack accepts exactly the flattenings of properly nested messages |
| Welcome.TokensAreAllowed | app/domain/welcome.py:28-44 | only allowed tags and safe links get through |
| Welcome.MarkAcceptedIff | app/domain/welcome.py:28-44 | exactly eleven plain tags without attributes, and links with one safe address, are accepted |
| Welcome.EscapedAs | app/domain/welcome.py:53-60 | what escaping writes for each character |
| Welcome.EscapedIsClean | app/domain/welcome.py:40-60 | escaped text shows no angle bracket, in attributes no quote |
| Welcome.EscapeRoundTrip | app/domain/welcome.py:40-60 | unescaping undoes escaping, whatever follows |
| Welcome.OutputReadsBack | app/domain/welcome.py:28-60 | reading the output gives the accepted tokens with adjacent texts merged |
| Welcome.OutputIsStable | app/domain/welcome.py:21-65 | filtering what was read is accepted and gives the same output |

## Left out

- WorkingTime.SlotsAreWorkingTime: offsets and transitions are whole minutes (`WholeMinutes`), as in every tz rule since civil time dropped local mean time.
- Windows.EveryRunIsSpaced: settings are fixed during a run and the zone's day bounds are exact (`LocalDays.BoundsAreExactIff` says when they are).
- Workstations.EveryRunIsExclusive: the business's time zone is fixed during a run, and its local date never moves backwards; rows without a workstation are outside the constraint.
- Reassignment.Calendar.ReassignFutureAppointments: a live hold's window is not on offer and is its booking's, which no database constraint says.
- Reservations.StepKeepsInv: appointments, payments and audit rows beside the hold are not modelled, and consuming is not tied to them; that reassignment finds its target windows without a live hold is the invariant of `Reassignment`.
- LeaseQueue.Queue.CancelUnsent: the waitlist's unlocked read before its cancellation is a step of the run only (`CancelStale`).
- LeaseQueue.Queue.ClaimDue: marking a booked waitlist entry, enqueueing a match and freezing broadcast recipients are inserts and updates by key; only the rows they add are steps here.
- HardDelete.Store.DeleteWindowWithHistory: the row to delete exists in the business, as its caller has locked it; keys to tables that nothing is deleted from (users, staff, businesses) cannot be violated and are not listed.
- Anonymisation.Database.AnonymizeClientData: consents, audit rows and the deletion request itself are written by its caller; snapshots of addresses and names of masters on bookings are kept columns.
- Refunds.Store.EnsureRefund: the comparison with an existing refund is by payment and amount; reason codes, metadata and currencies are not modelled, nor the race of one key on two payments.
- Welcome.Sanitize: `HTMLParser`, case folding and URL splitting are given functions; stripping and the length check before parsing are left out, after which the output is not a fixed point of the whole function.
- Python's exceptions for naive timestamps, the validation of names and ids, Redis key names and `reset`, and the date-exception overlap check (the weekly one is modelled) would only add easy members.
- The rolling quota of future bookings, permission checks, tokens, messages, pagination and configuration are not modelled.
