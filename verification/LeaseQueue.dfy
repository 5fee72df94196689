/** Workers that claim rows of a delivery queue under SKIP LOCKED and take over expired leases. */
module LeaseQueue {
  import opened Basics
  import opened Sorting

  /** The three queues; each has its own idea of when a row is due. */
  datatype Kind = Notifications | Broadcasts | Waitlist

  datatype Status = Pending | Retry | Processing | Sent | Failed | Cancelled | Skipped | Unsubscribed | Blocked

  predicate OpenStatus(s: Status) { s == Pending || s == Retry || s == Processing }

  datatype CampaignStatus = Draft | Scheduled | Preparing | Sending | Completed
    | PartlyFailed | CampaignCancelled | CampaignFailed

  datatype Campaign = Campaign(status: CampaignStatus, scheduledAt: int)

  /** A queue row; `group` is its appointment, broadcast or waitlist entry, `topic` the type of a
      notification. */
  datatype Job = Job(
    group: int, topic: int, status: Status, availableAt: int, lockedAt: Option<int>, lockedBy: Option<int>,
    attempts: nat, lastError: Option<string>)

  type Jobs = map<int, Job>

  predicate Sendable(campaigns: map<int, Campaign>, group: int, now: int) {
    && group in campaigns
    && campaigns[group].status in {Scheduled, Preparing, Sending}
    && campaigns[group].scheduledAt <= now
  }

  /** The WHERE clause of the claim, apart from the broadcast's own state. */
  predicate Due(kind: Kind, job: Job, now: int, cutoff: int) {
    match kind
    case Notifications =>
      || (job.status == Pending && job.availableAt <= now)
      || (job.status == Processing && job.availableAt <= now && job.lockedAt.Some? && job.lockedAt.value <= cutoff)
    case Broadcasts =>
      || ((job.status == Pending || job.status == Retry) && job.availableAt <= now)
      || (job.status == Processing && job.lockedAt.Some? && job.lockedAt.value <= cutoff)
    case Waitlist =>
      && (job.status == Pending || job.status == Retry
          || (job.status == Processing && job.lockedAt.Some? && job.lockedAt.value < cutoff))
      && job.availableAt <= now
  }

  predicate Eligible(kind: Kind, campaigns: map<int, Campaign>, jobs: Jobs, id: int, now: int, cutoff: int) {
    && id in jobs && Due(kind, jobs[id], now, cutoff)
    && (kind == Broadcasts ==> Sendable(campaigns, jobs[id].group, now))
  }

  /** ORDER BY available_at, id. */
  predicate Before(jobs: Jobs, a: int, b: int) {
    var x, y := (if a in jobs then jobs[a].availableAt else 0), (if b in jobs then jobs[b].availableAt else 0);
    x < y || (x == y && a <= b)
  }

  /** What SELECT … ORDER BY … LIMIT … FOR UPDATE SKIP LOCKED returns. */
  ghost predicate IsBatch(kind: Kind, campaigns: map<int, Campaign>, jobs: Jobs, locked: set<int>, now: int,
                          cutoff: int, limit: nat, ids: seq<int>)
  {
    && (forall i :: 0 <= i < |ids| ==> Eligible(kind, campaigns, jobs, ids[i], now, cutoff) && ids[i] !in locked)
    && (forall i, j :: 0 <= i < j < |ids| ==> ids[i] != ids[j] && Before(jobs, ids[i], ids[j]))
    && |ids| <= limit
    && (forall id :: Eligible(kind, campaigns, jobs, id, now, cutoff) && id !in locked && id !in ids ==>
          |ids| == limit && forall i :: 0 <= i < |ids| ==> Before(jobs, ids[i], id))
  }

  /** The row after a claim. */
  function ClaimedJob(job: Job, worker: int, now: int): Job {
    job.(status := Processing, attempts := job.attempts + 1, lockedAt := Some(now), lockedBy := Some(worker))
  }

  function ClaimAll(jobs: Jobs, ids: set<int>, worker: int, now: int): Jobs {
    map id | id in jobs :: if id in ids then ClaimedJob(jobs[id], worker, now) else jobs[id]
  }

  /** The row after a cancellation. */
  function CancelledJob(kind: Kind, job: Job): Job {
    if kind == Broadcasts
    then job.(status := Skipped, lockedAt := None, lockedBy := None, lastError := Some("broadcast_cancelled"))
    else job.(status := Cancelled, lockedAt := None, lockedBy := None)
  }

  function CancelAll(kind: Kind, jobs: Jobs, ids: set<int>): Jobs {
    map id | id in jobs :: if id in ids then CancelledJob(kind, jobs[id]) else jobs[id]
  }

  /** The rows a cancellation selects. */
  function OpenOf(jobs: Jobs, group: int): set<int> {
    set id | id in jobs && jobs[id].group == group && OpenStatus(jobs[id].status)
  }

  function OpenOfType(jobs: Jobs, topic: int): set<int> {
    set id | id in jobs && jobs[id].topic == topic && OpenStatus(jobs[id].status)
  }

  // ---------------------------------------------------------------------------
  // The statements

  /** A batch is in the order of availability and id, and what it leaves for want of room comes later. */
  lemma BatchOrder(kind: Kind, campaigns: map<int, Campaign>, jobs: Jobs, skipped: set<int>, now: int, cutoff: int,
                   limit: nat, ids: seq<int>)
    requires IsBatch(kind, campaigns, jobs, skipped, now, cutoff, limit, ids)
    ensures forall i, j :: 0 <= i < j < |ids| ==>
              && ids[i] in jobs && ids[j] in jobs
              && (jobs[ids[i]].availableAt < jobs[ids[j]].availableAt
                  || (jobs[ids[i]].availableAt == jobs[ids[j]].availableAt && ids[i] < ids[j]))
    ensures forall id, other :: Eligible(kind, campaigns, jobs, id, now, cutoff) && id !in skipped && id !in ids
                                && other in ids ==>
              && id in jobs && other in jobs && |ids| == limit
              && (jobs[other].availableAt < jobs[id].availableAt
                  || (jobs[other].availableAt == jobs[id].availableAt && other < id))
  {
    forall i | 0 <= i < |ids| ensures ids[i] in jobs && ids[i] in ids {
    }
  }

  /** When a row is due, by its columns; a row that is still open and not held is due from some
      moment on, a row whose worker vanished as soon as the lease is over. */
  lemma DueIs(kind: Kind, job: Job, now: int, cutoff: int)
    ensures Due(kind, job, now, cutoff) ==> OpenStatus(job.status)
    ensures job.status == Pending ==> (Due(kind, job, now, cutoff) <==> job.availableAt <= now)
    ensures job.status == Retry && kind != Notifications ==> (Due(kind, job, now, cutoff) <==> job.availableAt <= now)
    ensures job.status == Retry && kind == Notifications ==> !Due(kind, job, now, cutoff)
    ensures job.status == Processing ==>
              (Due(kind, job, now, cutoff) <==>
                 && job.lockedAt.Some? && (kind == Broadcasts || job.availableAt <= now)
                 && (job.lockedAt.value < cutoff || (kind != Waitlist && job.lockedAt.value == cutoff)))
  {
  }

  lemma SendableIs(campaigns: map<int, Campaign>, group: int, now: int)
    ensures Sendable(campaigns, group, now) <==>
            && group in campaigns && campaigns[group].scheduledAt <= now
            && (campaigns[group].status == Scheduled || campaigns[group].status == Preparing
                || campaigns[group].status == Sending)
  {
  }

  /** An abandoned row is taken over: once its lease is over and it is available, every batch that
      does not pass over it and has room contains it. */
  lemma AbandonedIsTakenOver(kind: Kind, campaigns: map<int, Campaign>, jobs: Jobs, skipped: set<int>, now: int,
                             lease: nat, limit: nat, ids: seq<int>, id: int)
    requires IsBatch(kind, campaigns, jobs, skipped, now, now - lease, limit, ids) && |ids| < limit
    requires id in jobs && id !in skipped && jobs[id].status == Processing && jobs[id].lockedAt.Some?
    requires jobs[id].lockedAt.value + lease < now && jobs[id].availableAt <= now
    requires kind == Broadcasts ==> Sendable(campaigns, jobs[id].group, now)
    ensures id in ids
  {
    assert Eligible(kind, campaigns, jobs, id, now, now - lease);
  }

  /** The same for a row that waits. */
  lemma WaitingIsClaimed(kind: Kind, campaigns: map<int, Campaign>, jobs: Jobs, skipped: set<int>, now: int,
                         lease: nat, limit: nat, ids: seq<int>, id: int)
    requires IsBatch(kind, campaigns, jobs, skipped, now, now - lease, limit, ids) && |ids| < limit
    requires id in jobs && id !in skipped && jobs[id].availableAt <= now
    requires jobs[id].status == Pending || (jobs[id].status == Retry && kind != Notifications)
    requires kind == Broadcasts ==> Sendable(campaigns, jobs[id].group, now)
    ensures id in ids
  {
    assert Eligible(kind, campaigns, jobs, id, now, now - lease);
  }

  /** What a claim and a cancellation write. */
  lemma ClaimWrites(job: Job, worker: int, now: int)
    ensures var y := ClaimedJob(job, worker, now);
            && y.status == Processing && y.attempts == job.attempts + 1 && y.lockedAt == Some(now)
            && y.lockedBy == Some(worker) && y.group == job.group && y.topic == job.topic
            && y.availableAt == job.availableAt && y.lastError == job.lastError
  {
  }

  lemma CancelWrites(kind: Kind, job: Job)
    ensures var y := CancelledJob(kind, job);
            && !OpenStatus(y.status) && y.lockedAt == None && y.lockedBy == None && y.attempts == job.attempts
            && y.group == job.group && y.topic == job.topic && y.availableAt == job.availableAt
            && (kind == Broadcasts ==> y.status == Skipped && y.lastError == Some("broadcast_cancelled"))
            && (kind != Broadcasts ==> y.status == Cancelled && y.lastError == job.lastError)
  {
  }

  lemma OpenAre(s: Status)
    ensures !OpenStatus(s) <==>
              s == Sent || s == Failed || s == Cancelled || s == Skipped || s == Unsubscribed || s == Blocked
  {
  }

  lemma BeforeIsOrder(jobs: Jobs)
    ensures TotalPreorder((a, b) => Before(jobs, a, b))
  {
  }

  /** The i-th row of one batch comes no later than the i-th row of another that agrees so far. */
  lemma NextComesFirst(kind: Kind, campaigns: map<int, Campaign>, jobs: Jobs, locked: set<int>, now: int, cutoff: int,
                       limit: nat, a: seq<int>, b: seq<int>, i: nat)
    requires IsBatch(kind, campaigns, jobs, locked, now, cutoff, limit, a)
    requires IsBatch(kind, campaigns, jobs, locked, now, cutoff, limit, b)
    requires i < |a| && i < |b| && a[..i] == b[..i]
    ensures Before(jobs, a[i], b[i])
  {
    forall k | 0 <= k < i ensures a[k] == b[k] {
      assert a[..i][k] == b[..i][k];
    }
    if b[i] in a {
      var k :| 0 <= k < |a| && a[k] == b[i];
    }
  }

  lemma NonEmpty(xs: seq<int>)
    ensures xs == [] || xs[0] in xs
  {
  }

  lemma SameLength(kind: Kind, campaigns: map<int, Campaign>, jobs: Jobs, locked: set<int>, now: int, cutoff: int,
                   limit: nat, a: seq<int>, b: seq<int>)
    requires IsBatch(kind, campaigns, jobs, locked, now, cutoff, limit, a)
    requires IsBatch(kind, campaigns, jobs, locked, now, cutoff, limit, b)
    requires |a| <= |b| && a == b[..|a|]
    ensures |a| == |b|
  {
    var extra := b[|a|..];
    assert forall id :: id in extra ==> id in b && id !in b[..|a|];
    assert forall id :: id in extra ==> |a| == limit;
    NonEmpty(extra);
  }

  /** The rows of a batch are determined by the state of the queue. */
  lemma {:induction false} BatchIsDetermined(kind: Kind, campaigns: map<int, Campaign>, jobs: Jobs, locked: set<int>,
                                             now: int, cutoff: int, limit: nat, a: seq<int>, b: seq<int>, i: nat)
    requires IsBatch(kind, campaigns, jobs, locked, now, cutoff, limit, a)
    requires IsBatch(kind, campaigns, jobs, locked, now, cutoff, limit, b)
    requires i <= |a| <= |b|
    ensures a[..i] == b[..i]
    ensures i == |a| ==> a == b
  {
    if i > 0 {
      BatchIsDetermined(kind, campaigns, jobs, locked, now, cutoff, limit, a, b, i - 1);
      NextComesFirst(kind, campaigns, jobs, locked, now, cutoff, limit, a, b, i - 1);
      NextComesFirst(kind, campaigns, jobs, locked, now, cutoff, limit, b, a, i - 1);
      assert a[..i] == a[..i - 1] + [a[i - 1]] && b[..i] == b[..i - 1] + [b[i - 1]];
    }
    if i == |a| {
      assert a[..i] == a;
      SameLength(kind, campaigns, jobs, locked, now, cutoff, limit, a, b);
    }
  }

  lemma PrefixIsBatch(kind: Kind, campaigns: map<int, Campaign>, jobs: Jobs, locked: set<int>, now: int, cutoff: int,
                      limit: nat, ordered: seq<int>)
    requires forall id :: id in ordered <==> Eligible(kind, campaigns, jobs, id, now, cutoff) && id !in locked
    requires forall i, j :: 0 <= i < j < |ordered| ==> ordered[i] != ordered[j] && Before(jobs, ordered[i], ordered[j])
    ensures IsBatch(kind, campaigns, jobs, locked, now, cutoff, limit,
                    if |ordered| <= limit then ordered else ordered[..limit])
  {
    var ids := if |ordered| <= limit then ordered else ordered[..limit];
    forall i | 0 <= i < |ids| ensures ids[i] == ordered[i] && ordered[i] in ids {
    }
    forall id | id in ordered && id !in ids
      ensures |ids| == limit && forall i :: 0 <= i < |ids| ==> Before(jobs, ids[i], id)
    {
      var k :| 0 <= k < |ordered| && ordered[k] == id;
    }
  }

  class Queue {
    const kind: Kind
    var jobs: Jobs

    constructor (kind: Kind)
      ensures this.kind == kind && jobs == map[]
    {
      this.kind := kind;
      jobs := map[];
    }

    /** The rows to claim: those other workers hold locked are skipped. */
    method SelectDue(campaigns: map<int, Campaign>, locked: set<int>, now: int, cutoff: int, limit: nat)
        returns (ids: seq<int>)
      ensures IsBatch(kind, campaigns, jobs, locked, now, cutoff, limit, ids)
    {
      var rows := jobs;
      var found := set id | id in rows && Eligible(kind, campaigns, rows, id, now, cutoff) && id !in locked;
      var listed := ToList(found);
      var order := (a, b) => Before(rows, a, b);
      var ordered := Sort(order, listed);
      BeforeIsOrder(rows);
      SortPermutes(order, listed);
      SortOrders(order, listed);
      ListedOnce(ordered, found);
      assert forall i, j :: 0 <= i < j < |ordered| ==> order(ordered[i], ordered[j]);
      PrefixIsBatch(kind, campaigns, jobs, locked, now, cutoff, limit, ordered);
      ids := if |ordered| <= limit then ordered else ordered[..limit];
    }

    /** The claim: the selected rows are marked one after another. */
    method ClaimDue(campaigns: map<int, Campaign>, locked: set<int>, now: int, cutoff: int, worker: int, limit: nat)
        returns (ids: seq<int>)
      modifies this
      ensures IsBatch(kind, campaigns, old(jobs), locked, now, cutoff, limit, ids)
      ensures jobs == ClaimAll(old(jobs), Elements(ids), worker, now)
    {
      ids := SelectDue(campaigns, locked, now, cutoff, limit);
      for i := 0 to |ids|
        invariant jobs == ClaimAll(old(jobs), Elements(ids[..i]), worker, now)
      {
        assert ids[..i + 1] == ids[..i] + [ids[i]];
        jobs := jobs[ids[i] := ClaimedJob(jobs[ids[i]], worker, now)];
      }
      assert ids[..|ids|] == ids;
    }

    /** Cancelling what is not yet sent for an appointment, a broadcast or a waitlist entry. */
    method CancelUnsent(group: int) returns (count: nat)
      modifies this
      ensures jobs == CancelAll(kind, old(jobs), OpenOf(old(jobs), group))
      ensures count == |OpenOf(old(jobs), group)|
    {
      var rows := jobs;
      var found := set id | id in rows && rows[id].group == group && OpenStatus(rows[id].status);
      assert found == OpenOf(rows, group);
      count := CancelRows(found);
    }

    /** The same for all notifications of one type. */
    method CancelUnsentByType(topic: int) returns (count: nat)
      modifies this
      ensures jobs == CancelAll(kind, old(jobs), OpenOfType(old(jobs), topic))
      ensures count == |OpenOfType(old(jobs), topic)|
    {
      var rows := jobs;
      var found := set id | id in rows && rows[id].topic == topic && OpenStatus(rows[id].status);
      assert found == OpenOfType(rows, topic);
      count := CancelRows(found);
    }

    method CancelRows(found: set<int>) returns (count: nat)
      requires found <= jobs.Keys
      modifies this
      ensures jobs == CancelAll(kind, old(jobs), found) && count == |found|
    {
      var ids := ToList(found);
      ListedOnce(ids, found);
      for i := 0 to |ids|
        invariant jobs == CancelAll(kind, old(jobs), Elements(ids[..i]))
      {
        assert ids[..i + 1] == ids[..i] + [ids[i]] && ids[i] in found;
        jobs := jobs[ids[i] := CancelledJob(kind, jobs[ids[i]])];
      }
      assert ids[..|ids|] == ids;
      ElementsAre(ids, found);
      count := |ids|;
    }
  }

  // ---------------------------------------------------------------------------
  // Workers side by side

  /** An open claim: the rows it holds locked until it commits. */
  datatype Claim = Claim(now: int, ids: set<int>)

  /** The committed rows, and the claims in progress by worker. */
  datatype State = State(jobs: Jobs, campaigns: map<int, Campaign>, held: map<int, Claim>)

  datatype Event =
    | BeginClaim(worker: int, now: int, limit: nat, skipped: set<int>, ids: seq<int>)
    | CommitClaim(worker: int)
    | AbortClaim(worker: int)
    | Cancel(group: int)
    | CancelType(topic: int)
    | CancelStale(group: int, stale: set<int>)
    | Settle(worker: int, id: int, status: Status)
    | PutBack(worker: int, id: int, availableAt: int)
    | Reset(id: int, availableAt: int)
    | Enqueue(id: int, group: int, topic: int, availableAt: int)
    | ChangeCampaigns(campaigns: map<int, Campaign>)

  function Locked(s: State): set<int> {
    set w, id | w in s.held && id in s.held[w].ids :: id
  }

  /** The rows a new claim passes over at least: those others hold, and for broadcasts every row
      whose campaign, locked along with it, another claim holds. */
  function Unavailable(kind: Kind, s: State): set<int> {
    Locked(s) +
    if kind == Broadcasts then set w, id, other | w in s.held && id in s.held[w].ids && id in s.jobs && other in s.jobs
                                   && s.jobs[other].group == s.jobs[id].group :: other
    else {}
  }

  /** The worker still owns the row: `_claimed_job`. */
  predicate Owns(s: State, worker: int, id: int) {
    id in s.jobs && s.jobs[id].status == Processing && s.jobs[id].lockedBy == Some(worker) && id !in Locked(s)
  }

  /** One step. A claim passes over every row that is unavailable, and may pass over more, which
      some other transaction has locked. An UPDATE waits for row locks, so it touches unlocked
      rows only. The waitlist reads the rows to cancel without locking them, so theirs may have
      changed since. A change of settings resets reminders that are not sent, closed ones too. */
  ghost predicate Next(kind: Kind, lease: nat, s: State, e: Event, s': State) {
    match e
    case BeginClaim(worker, now, limit, skipped, ids) =>
      && worker !in s.held && Unavailable(kind, s) <= skipped
      && IsBatch(kind, s.campaigns, s.jobs, skipped, now, now - lease, limit, ids)
      && s' == s.(held := s.held[worker := Claim(now, Elements(ids))])
    case CommitClaim(worker) =>
      && worker in s.held
      && s' == s.(jobs := ClaimAll(s.jobs, s.held[worker].ids, worker, s.held[worker].now), held := s.held - {worker})
    case AbortClaim(worker) =>
      worker in s.held && s' == s.(held := s.held - {worker})
    case Cancel(group) =>
      OpenOf(s.jobs, group) !! Locked(s) && s' == s.(jobs := CancelAll(kind, s.jobs, OpenOf(s.jobs, group)))
    case CancelType(topic) =>
      && kind == Notifications && OpenOfType(s.jobs, topic) !! Locked(s)
      && s' == s.(jobs := CancelAll(kind, s.jobs, OpenOfType(s.jobs, topic)))
    case CancelStale(group, stale) =>
      && kind == Waitlist && stale !! Locked(s)
      && (forall id :: id in stale ==> id in s.jobs && s.jobs[id].group == group)
      && s' == s.(jobs := CancelAll(kind, s.jobs, stale))
    case Settle(worker, id, status) =>
      && Owns(s, worker, id) && !OpenStatus(status)
      && s' == s.(jobs := s.jobs[id := s.jobs[id].(status := status, lockedAt := None, lockedBy := None)])
    case PutBack(worker, id, availableAt) =>
      && Owns(s, worker, id)
      && s' == s.(jobs := s.jobs[id := s.jobs[id].(status := if kind == Notifications then Pending else Retry,
                                                  availableAt := availableAt, lockedAt := None, lockedBy := None)])
    case Reset(id, availableAt) =>
      && kind == Notifications && id in s.jobs && id !in Locked(s) && s.jobs[id].status != Sent
      && s' == s.(jobs := s.jobs[id := s.jobs[id].(status := Pending, availableAt := availableAt, attempts := 0,
                                                  lockedAt := None, lockedBy := None, lastError := None)])
    case Enqueue(id, group, topic, availableAt) =>
      id !in s.jobs && s' == s.(jobs := s.jobs[id := Job(group, topic, Pending, availableAt, None, None, 0, None)])
    case ChangeCampaigns(campaigns) =>
      s' == s.(campaigns := campaigns)
  }

  ghost predicate Inv(kind: Kind, lease: nat, s: State) {
    && (forall w, id :: w in s.held && id in s.held[w].ids ==>
          id in s.jobs && Due(kind, s.jobs[id], s.held[w].now, s.held[w].now - lease))
    && (forall w, v :: w in s.held && v in s.held && w != v ==> s.held[w].ids !! s.held[v].ids)
    && (kind == Broadcasts ==> forall w, v, id, other :: OfTwoClaims(s, w, v, id, other) ==>
          s.jobs[id].group != s.jobs[other].group)
  }

  ghost predicate OfTwoClaims(s: State, w: int, v: int, id: int, other: int) {
    && w in s.held && v in s.held && w != v && id in s.held[w].ids && other in s.held[v].ids
    && id in s.jobs && other in s.jobs
  }

  ghost predicate Run(kind: Kind, lease: nat, states: seq<State>, events: seq<Event>) {
    && |states| == |events| + 1
    && states[0].held == map[]
    && forall i :: 0 <= i < |events| ==> Next(kind, lease, states[i], events[i], states[i + 1])
  }

  /** A row that a worker holds is not touched by any other step. */
  lemma HeldIsUntouched(kind: Kind, lease: nat, s: State, e: Event, s': State, w: int, id: int)
    requires Inv(kind, lease, s) && Next(kind, lease, s, e, s')
    requires w in s.held && id in s.held[w].ids && w in s'.held
    ensures s'.held[w] == s.held[w] && id in s'.jobs && s'.jobs[id] == s.jobs[id]
  {
    assert id in Locked(s);
    if e.CommitClaim? {
      assert s.held[e.worker].ids !! s.held[w].ids;
    }
  }

  lemma StepKeepsInv(kind: Kind, lease: nat, s: State, e: Event, s': State)
    requires Inv(kind, lease, s) && Next(kind, lease, s, e, s')
    ensures Inv(kind, lease, s')
  {
    forall w, id | w in s'.held && id in s'.held[w].ids
      ensures id in s'.jobs && Due(kind, s'.jobs[id], s'.held[w].now, s'.held[w].now - lease)
    {
      if w in s.held {
        HeldIsUntouched(kind, lease, s, e, s', w, id);
      }
    }
    if e.BeginClaim? {
      forall w | w in s.held ensures s.held[w].ids !! Elements(e.ids) {
        assert forall id :: id in s.held[w].ids ==> id in Locked(s);
      }
    }
    if kind == Broadcasts {
      forall w, v, id, other | OfTwoClaims(s', w, v, id, other) ensures s'.jobs[id].group != s'.jobs[other].group {
        CampaignsStayApart(lease, s, e, s', w, v, id, other);
      }
    }
  }

  lemma CampaignsStayApart(lease: nat, s: State, e: Event, s': State, w: int, v: int, id: int, other: int)
    requires Inv(Broadcasts, lease, s) && Next(Broadcasts, lease, s, e, s') && OfTwoClaims(s', w, v, id, other)
    ensures s'.jobs[id].group != s'.jobs[other].group
  {
    if w in s.held { HeldIsUntouched(Broadcasts, lease, s, e, s', w, id); }
    if v in s.held { HeldIsUntouched(Broadcasts, lease, s, e, s', v, other); }
    if w in s.held && v in s.held {
      assert OfTwoClaims(s, w, v, id, other);
    } else if w in s.held {
      assert other !in Unavailable(Broadcasts, s);
    } else {
      assert id !in Unavailable(Broadcasts, s);
    }
  }

  /** At every moment of every run the rows that two workers hold are disjoint, for broadcasts
      even of different campaigns, and every held row is still as due as when it was claimed. */
  lemma {:induction false} ConcurrentClaimsAreDisjoint(kind: Kind, lease: nat, states: seq<State>, events: seq<Event>,
                                                       n: nat)
    requires Run(kind, lease, states, events) && n < |states|
    ensures Inv(kind, lease, states[n])
  {
    if n > 0 {
      ConcurrentClaimsAreDisjoint(kind, lease, states, events, n - 1);
      StepKeepsInv(kind, lease, states[n - 1], events[n - 1], states[n - 1 + 1]);
    }
  }

  /** The step claims the row for good. */
  predicate Claims(s: State, e: Event, id: int) {
    e.CommitClaim? && e.worker in s.held && id in s.held[e.worker].ids
  }

  predicate Resets(e: Event, id: int) { e.Reset? && e.id == id }

  ghost predicate NeverReset(events: seq<Event>, id: int, i: nat, j: nat)
    requires j <= |events|
  {
    forall k :: i <= k < j ==> !Resets(events[k], id)
  }

  /** The claims of a row since it was last reset. */
  function Claimed(states: seq<State>, events: seq<Event>, id: int, n: nat): nat
    requires n <= |events| && |states| == |events| + 1
  {
    if n == 0 || Resets(events[n - 1], id) then 0
    else Claimed(states, events, id, n - 1) + if Claims(states[n - 1], events[n - 1], id) then 1 else 0
  }

  /** The attempts of a row count its claims since it was last reset, whether it was there at first
      or is enqueued during the run; a row that is not there has never been claimed. */
  lemma {:induction false} AttemptsCountClaims(kind: Kind, lease: nat, states: seq<State>, events: seq<Event>, id: int,
                                               n: nat)
    requires Run(kind, lease, states, events) && n < |states|
    ensures id in states[n].jobs ==>
              states[n].jobs[id].attempts ==
                Claimed(states, events, id, n)
                + if id in states[0].jobs && NeverReset(events, id, 0, n) then states[0].jobs[id].attempts else 0
    ensures id !in states[n].jobs ==> id !in states[0].jobs && Claimed(states, events, id, n) == 0
  {
    if n > 0 {
      AttemptsCountClaims(kind, lease, states, events, id, n - 1);
      ConcurrentClaimsAreDisjoint(kind, lease, states, events, n - 1);
      AttemptsOfStep(kind, lease, states[n - 1], events[n - 1], states[n - 1 + 1], id);
      assert NeverReset(events, id, 0, n) <==> NeverReset(events, id, 0, n - 1) && !Resets(events[n - 1], id);
    }
  }

  lemma AttemptsOfStep(kind: Kind, lease: nat, s: State, e: Event, s': State, id: int)
    requires Inv(kind, lease, s) && Next(kind, lease, s, e, s')
    ensures id in s.jobs ==>
              id in s'.jobs && s'.jobs[id].attempts ==
                if Resets(e, id) then 0 else s.jobs[id].attempts + if Claims(s, e, id) then 1 else 0
    ensures id !in s.jobs ==> !Claims(s, e, id) && (id in s'.jobs ==> s'.jobs[id].attempts == 0)
  {
  }

  /** A sent row, and any other row that is no longer open unless a change of settings resets it,
      stays closed and is never claimed again. */
  lemma {:induction false} TerminalIsNeverClaimed(kind: Kind, lease: nat, states: seq<State>, events: seq<Event>,
                                                  id: int, i: nat, j: nat)
    requires Run(kind, lease, states, events) && i <= j < |states|
    requires id in states[i].jobs && !OpenStatus(states[i].jobs[id].status)
    requires kind == Notifications && states[i].jobs[id].status != Sent ==> NeverReset(events, id, i, j)
    ensures id in states[j].jobs && !OpenStatus(states[j].jobs[id].status)
    ensures kind == Notifications && states[i].jobs[id].status == Sent ==> states[j].jobs[id].status == Sent
    ensures j < |events| ==> !Claims(states[j], events[j], id)
  {
    hide Inv, Next;
    ConcurrentClaimsAreDisjoint(kind, lease, states, events, j);
    if i < j {
      TerminalIsNeverClaimed(kind, lease, states, events, id, i, j - 1);
      ConcurrentClaimsAreDisjoint(kind, lease, states, events, j - 1);
      assert Next(kind, lease, states[j - 1], events[j - 1], states[j - 1 + 1]);
      TerminalStays(kind, lease, states[j - 1], events[j - 1], states[j], id);
    }
    if j < |events| { TerminalIsNotClaimed(kind, lease, states[j], events[j], id); }
  }

  lemma TerminalStays(kind: Kind, lease: nat, s: State, e: Event, s': State, id: int)
    requires Inv(kind, lease, s) && Next(kind, lease, s, e, s')
    requires id in s.jobs && !OpenStatus(s.jobs[id].status)
    requires kind == Notifications && s.jobs[id].status != Sent ==> !Resets(e, id)
    ensures id in s'.jobs && !OpenStatus(s'.jobs[id].status)
    ensures kind == Notifications && s.jobs[id].status == Sent ==> s'.jobs[id].status == Sent
  {
  }

  lemma TerminalIsNotClaimed(kind: Kind, lease: nat, s: State, e: Event, id: int)
    requires Inv(kind, lease, s) && id in s.jobs && !OpenStatus(s.jobs[id].status)
    ensures !Claims(s, e, id)
  {
  }

  /** The row was claimed at `since` or later and nobody may take it over before its lease ends. */
  ghost predicate Leased(kind: Kind, lease: nat, s: State, id: int, since: int) {
    && id in s.jobs
    && (s.jobs[id].status == Processing ==> s.jobs[id].lockedAt.Some? && since <= s.jobs[id].lockedAt.value)
    && (s.jobs[id].status == Processing || !OpenStatus(s.jobs[id].status))
  }

  /** The step makes the row due again at a moment of its choice. */
  predicate PutsBack(e: Event, id: int) { (e.PutBack? || e.Reset?) && e.id == id }

  lemma LeasedStays(kind: Kind, lease: nat, s: State, e: Event, s': State, id: int, since: int)
    requires Inv(kind, lease, s) && Next(kind, lease, s, e, s') && !PutsBack(e, id)
    requires Leased(kind, lease, s, id, since)
    ensures Leased(kind, lease, s', id, since)
    ensures Claims(s, e, id) ==>
              since + lease <= s.held[e.worker].now && (kind == Waitlist ==> since + lease < s.held[e.worker].now)
  {
  }

  lemma {:induction false} LeasedUntil(kind: Kind, lease: nat, states: seq<State>, events: seq<Event>, id: int,
                                       since: int, i: nat, j: nat)
    requires Run(kind, lease, states, events) && i <= j < |states| && Leased(kind, lease, states[i], id, since)
    requires forall k :: i <= k < j ==> !PutsBack(events[k], id)
    ensures Leased(kind, lease, states[j], id, since)
  {
    if i < j {
      LeasedUntil(kind, lease, states, events, id, since, i, j - 1);
      ConcurrentClaimsAreDisjoint(kind, lease, states, events, j - 1);
      assert Next(kind, lease, states[j - 1], events[j - 1], states[j - 1 + 1]);
      LeasedStays(kind, lease, states[j - 1], events[j - 1], states[j], id, since);
    }
  }

  /** The row is not claimed before the moment it was put back for. */
  ghost predicate Awaits(s: State, id: int, availableAt: int) {
    && id in s.jobs && s.jobs[id].availableAt == availableAt
    && (s.jobs[id].status == Processing ==> s.jobs[id].lockedAt.Some? && availableAt <= s.jobs[id].lockedAt.value)
  }

  lemma AwaitsStays(kind: Kind, lease: nat, s: State, e: Event, s': State, id: int, availableAt: int)
    requires Inv(kind, lease, s) && Next(kind, lease, s, e, s') && !PutsBack(e, id) && Awaits(s, id, availableAt)
    ensures Awaits(s', id, availableAt) && (Claims(s, e, id) ==> availableAt <= s.held[e.worker].now)
  {
  }

  lemma {:induction false} AwaitsUntil(kind: Kind, lease: nat, states: seq<State>, events: seq<Event>, id: int,
                                       availableAt: int, i: nat, j: nat)
    requires Run(kind, lease, states, events) && i <= j < |states| && Awaits(states[i], id, availableAt)
    requires forall k :: i <= k < j ==> !PutsBack(events[k], id)
    ensures Awaits(states[j], id, availableAt)
  {
    if i < j {
      AwaitsUntil(kind, lease, states, events, id, availableAt, i, j - 1);
      ConcurrentClaimsAreDisjoint(kind, lease, states, events, j - 1);
      assert Next(kind, lease, states[j - 1], events[j - 1], states[j - 1 + 1]);
      AwaitsStays(kind, lease, states[j - 1], events[j - 1], states[j], id, availableAt);
    }
  }

  /** The row is put back at step k, for a moment no later than `now`, and not again before step j. */
  ghost predicate LastPutBack(events: seq<Event>, id: int, i: nat, k: nat, j: nat, now: int)
    requires j <= |events|
  {
    && i < k < j && PutsBack(events[k], id) && events[k].availableAt <= now
    && forall m :: k < m < j ==> !PutsBack(events[m], id)
  }

  lemma {:induction false} LastOf(events: seq<Event>, id: int, i: nat, j: nat) returns (k: nat)
    requires i <= j <= |events| && exists m :: i < m < j && PutsBack(events[m], id)
    ensures i < k < j && PutsBack(events[k], id) && forall m :: k < m < j ==> !PutsBack(events[m], id)
    decreases j
  {
    k := j - 1;
    if !PutsBack(events[j - 1], id) {
      k := LastOf(events, id, i, j - 1);
    }
  }

  /** Two claims of one row, whoever makes them, are a whole lease apart (for the waitlist, whose
      comparison is strict, more than a lease), unless the row was put back between them by a
      worker or a change of settings; then the second waits for the moment it was last put back for. */
  lemma LeasesAreRespected(kind: Kind, lease: nat, states: seq<State>, events: seq<Event>, id: int, i: nat, j: nat)
    requires Run(kind, lease, states, events) && i < j < |events|
    requires Claims(states[i], events[i], id) && Claims(states[j], events[j], id)
    ensures var first, second := states[i].held[events[i].worker].now, states[j].held[events[j].worker].now;
            || (first + lease <= second && (kind == Waitlist ==> first + lease < second))
            || exists k: nat :: LastPutBack(events, id, i, k, j, second)
  {
    var first := states[i].held[events[i].worker].now;
    ConcurrentClaimsAreDisjoint(kind, lease, states, events, i);
    ConcurrentClaimsAreDisjoint(kind, lease, states, events, j);
    assert Next(kind, lease, states[i], events[i], states[i + 1]);
    assert Next(kind, lease, states[j], events[j], states[j + 1]);
    if exists m :: i < m < j && PutsBack(events[m], id) {
      var k := LastOf(events, id, i, j);
      assert Next(kind, lease, states[k], events[k], states[k + 1]);
      AwaitsUntil(kind, lease, states, events, id, events[k].availableAt, k + 1, j);
      AwaitsStays(kind, lease, states[j], events[j], states[j + 1], id, events[k].availableAt);
      assert LastPutBack(events, id, i, k, j, states[j].held[events[j].worker].now);
    } else {
      assert Leased(kind, lease, states[i + 1], id, first);
      LeasedUntil(kind, lease, states, events, id, first, i + 1, j);
      LeasedStays(kind, lease, states[j], events[j], states[j + 1], id, first);
    }
  }
}
