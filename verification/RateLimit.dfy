/** The Redis sliding-window limiter: two Lua scripts over one sorted set with key expiry,
    and what they guarantee over whole traces. Times are server milliseconds. */
module RateLimit {
  import opened Basics

  /** Members with their scores. */
  type Entries = map<string, int>

  datatype Reply = Reply(allowed: bool, remaining: int, retryMs: int)

  /** The entries that a cleanup at `now` keeps. */
  function Live(entries: Entries, now: int, window: int): Entries {
    map m | m in entries && entries[m] > now - window :: entries[m]
  }

  lemma {:induction false} OldestExists(entries: Entries) returns (m: string)
    requires entries != map[]
    ensures m in entries && forall k :: k in entries ==> entries[m] <= entries[k]
    decreases |entries|
  {
    var x :| x in entries;
    var rest := entries - {x};
    assert entries.Keys == rest.Keys + {x};
    if rest == map[] {
      m := x;
    } else {
      var y := OldestExists(rest);
      m := if entries[x] <= entries[y] then x else y;
      forall k | k in entries ensures entries[m] <= entries[k] {
        if k != x { assert k in rest; }
      }
    }
  }

  /** The score that `ZRANGE 0 0` returns. */
  function OldestScore(entries: Entries): (s: int)
    requires entries != map[]
    ensures exists m :: m in entries && entries[m] == s
    ensures forall m :: m in entries ==> s <= entries[m]
  {
    assert exists s :: s in entries.Values && forall v :: v in entries.Values ==> s <= v by {
      var m := OldestExists(entries);
      assert entries[m] in entries.Values;
    }
    assert forall m :: m in entries ==> entries[m] in entries.Values;
    var s :| s in entries.Values && forall v :: v in entries.Values ==> s <= v;
    s
  }

  /** How long a full window makes its callers wait. */
  function RetryAfter(live: Entries, now: int, window: int): int {
    if live == map[] then window else Max(1, OldestScore(live) + window - now)
  }

  // ---------------------------------------------------------------------------
  // The limiter without key expiry

  /** What a request does to the live entries, and what it is told. */
  function Consumed(live: Entries, now: int, limit: int, member: string): Entries {
    if member in live || |live| >= limit then live else live[member := now]
  }

  function ConsumeReply(live: Entries, now: int, window: int, limit: int, member: string): Reply {
    if member in live then Reply(true, Max(limit - |live|, 0), 0)
    else if |live| >= limit then Reply(false, 0, RetryAfter(live, now, window))
    else Reply(true, Max(limit - (|live| + 1), 0), 0)
  }

  function InspectReply(live: Entries, now: int, window: int, limit: int): Reply {
    if |live| >= limit then Reply(false, 0, RetryAfter(live, now, window))
    else Reply(true, Max(limit - |live|, 0), 0)
  }

  /** What fresh requests at one moment do, one after another. */
  function ConsumedAll(live: Entries, now: int, limit: int, members: seq<string>): Entries
    decreases members
  {
    if members == [] then live else ConsumedAll(Consumed(live, now, limit, members[0]), now, limit, members[1..])
  }

  /** The reply tells how many more fresh requests the same moment would admit: every list of new
      ids gets just that many of them in, or all if there are fewer. */
  lemma {:induction false} RemainingIsExact(live: Entries, now: int, limit: int, members: seq<string>)
    requires |live| <= limit
    requires forall i :: 0 <= i < |members| ==> members[i] !in live
    requires forall i, j :: 0 <= i < j < |members| ==> members[i] != members[j]
    ensures |ConsumedAll(live, now, limit, members)| == Min(limit, |live| + |members|)
    decreases members
  {
    if members != [] {
      var next, rest := Consumed(live, now, limit, members[0]), members[1..];
      assert forall i :: 0 <= i < |rest| ==> rest[i] == members[i + 1];
      RemainingIsExact(next, now, limit, rest);
    }
  }

  lemma ReplyTellsWhatRemains(live: Entries, now: int, window: int, limit: int, member: string)
    requires |live| <= limit
    ensures ConsumeReply(live, now, window, limit, member).remaining == limit - |Consumed(live, now, limit, member)|
    ensures InspectReply(live, now, window, limit).remaining == limit - |live|
    ensures ConsumeReply(live, now, window, limit, member).allowed <==>
              member in Consumed(live, now, limit, member)
    ensures window > 0 ==>
              (ConsumeReply(live, now, window, limit, member).allowed <==>
                 ConsumeReply(live, now, window, limit, member).retryMs == 0)
  {
  }

  lemma LiveTwice(entries: Entries, t: int, t': int, window: int)
    requires t <= t'
    ensures Live(Live(entries, t, window), t', window) == Live(entries, t', window)
  {
  }

  // ---------------------------------------------------------------------------
  // The scripts

  /** One Redis key: a sorted set that is absent when empty, with an optional expiry. */
  class Key {
    var entries: Entries
    var expireAt: Option<int>
    /** The calls made so far. */
    ghost var calls: seq<Call>

    /** While the key holds anything it expires, and no sooner than its last entry dies. */
    ghost predicate Valid(window: int)
      reads this
    {
      && (entries != map[] ==> expireAt.Some?)
      && (forall m :: m in entries && expireAt.Some? ==> entries[m] + window <= expireAt.value)
    }

    /** The key holds what the limiter without expiry holds after the same calls, at every moment
        from the last of them on. */
    ghost predicate Traced(window: int, limit: int)
      reads this
    {
      && Valid(window) && ClockRuns(calls)
      && forall t :: NotAfter(calls, t) ==>
           && (forall m :: m in entries ==> entries[m] <= t)
           && LiveAt(t, window) == Live(After(calls, window, limit), t, window)
    }

    /** The set a command executed at `t` sees: an expired key is gone. */
    ghost function Seen(t: int): Entries
      reads this
    {
      if expireAt.Some? && t >= expireAt.value then map[] else entries
    }

    ghost function LiveAt(t: int, window: int): Entries
      reads this
    {
      Live(Seen(t), t, window)
    }

    /** Key expiry never hides an entry that is still live. */
    lemma ExpiryLosesNothing(t: int, window: int)
      requires Valid(window)
      ensures LiveAt(t, window) == Live(entries, t, window)
    {
    }

    constructor ()
      ensures calls == []
      ensures forall window, limit :: Traced(window, limit)
    {
      entries := map[];
      expireAt := None;
      calls := [];
    }

    /** Expiry on access followed by ZREMRANGEBYSCORE. */
    method CleanUp(now: int, window: int)
      requires window > 0 && Valid(window)
      modifies this`entries, this`expireAt
      ensures entries == old(LiveAt(now, window)) && Valid(window)
    {
      if expireAt.Some? && now >= expireAt.value {
        entries := map[];
        expireAt := None;
      }
      entries := Live(entries, now, window);
      if entries == map[] {
        expireAt := None;
      }
    }

    /** PEXPIRE, which does nothing to an absent key. */
    method Pexpire(now: int, window: int)
      requires window > 0 && forall m :: m in entries ==> entries[m] <= now
      modifies this`expireAt
      ensures Valid(window)
    {
      expireAt := if entries == map[] then None else Some(now + window);
    }

    /** The consume script, on a server clock that does not run backwards: it answers as the
        limiter without expiry does, and both go on alike. */
    method Consume(now: int, window: int, limit: int, member: string) returns (r: Reply)
      requires window > 0 && Traced(window, limit) && NotAfter(calls, now)
      modifies this
      ensures Traced(window, limit) && calls == old(calls) + [Request(now, member)]
      ensures r == ConsumeReply(Live(After(old(calls), window, limit), now, window), now, window, limit, member)
      ensures Admissions(calls, window, limit) ==
                Admissions(old(calls), window, limit)
                + if r.allowed && member !in old(LiveAt(now, window)) then [now] else []
      ensures limit >= 0 ==> WithinLimit(Admissions(calls, window, limit), window, limit)
    {
      CleanUp(now, window);
      ghost var live := entries;
      var count := |entries|;
      if member in entries {
        Pexpire(now, window);
        r := Reply(true, Max(limit - count, 0), 0);
      } else if count >= limit {
        var retryMs := window;
        if entries != map[] {
          retryMs := Max(1, OldestScore(entries) + window - now);
        }
        Pexpire(now, window);
        r := Reply(false, 0, retryMs);
      } else {
        entries := entries[member := now];
        count := count + 1;
        Pexpire(now, window);
        r := Reply(true, Max(limit - count, 0), 0);
      }
      assert entries == Consumed(live, now, limit, member);
      Record(Request(now, member), window, limit);
    }

    /** The inspect script: it changes no live entry, now or later. */
    method Inspect(now: int, window: int, limit: int) returns (r: Reply)
      requires window > 0 && Traced(window, limit) && NotAfter(calls, now)
      modifies this
      ensures Traced(window, limit) && calls == old(calls) + [Look(now)]
      ensures r == InspectReply(Live(After(old(calls), window, limit), now, window), now, window, limit)
      ensures forall t :: now <= t ==> LiveAt(t, window) == Live(After(old(calls), window, limit), t, window)
      ensures Admissions(calls, window, limit) == Admissions(old(calls), window, limit)
    {
      CleanUp(now, window);
      ghost var live := entries;
      var count := |entries|;
      if count >= limit {
        var retryMs := window;
        if entries != map[] {
          retryMs := Max(1, OldestScore(entries) + window - now);
        }
        Pexpire(now, window);
        r := Reply(false, 0, retryMs);
      } else {
        if count == 0 {
          entries := map[];
          expireAt := None;
        } else {
          Pexpire(now, window);
        }
        r := Reply(true, Max(limit - count, 0), 0);
      }
      assert entries == live;
      Record(Look(now), window, limit);
      forall t | now <= t ensures LiveAt(t, window) == Live(After(old(calls), window, limit), t, window) {
        LiveTwice(After(old(calls), window, limit), now, t, window);
      }
    }

    /** Notes a call whose effect on the entries is that of one step without expiry. */
    ghost method Record(call: Call, window: int, limit: int)
      requires Valid(window) && ClockRuns(calls) && NotAfter(calls, call.now) && window > 0
      requires entries == Step(After(calls, window, limit), call, window, limit)
      requires forall m :: m in entries ==> entries[m] <= call.now
      modifies this`calls
      ensures calls == old(calls) + [call] && Traced(window, limit)
      ensures Admissions(calls, window, limit) ==
                Admissions(old(calls), window, limit)
                + if Admits(After(old(calls), window, limit), call, window, limit) then [call.now] else []
      ensures limit >= 0 ==> WithinLimit(Admissions(calls, window, limit), window, limit)
    {
      calls := calls + [call];
      OneMoreCall(old(calls), call, window, limit);
      ClockRunsOn(old(calls), call);
      hide After, Admissions, Step, Admits, Consumed, Live, ClockRuns, NotAfter, Valid, WithinLimit, Traced;
      IsTraced(window, limit);
      if limit >= 0 { EveryTraceIsWithinTheLimit(calls, window, limit); }
    }

    lemma IsTraced(window: int, limit: int)
      requires Valid(window) && ClockRuns(calls) && calls != [] && entries == After(calls, window, limit)
      requires forall m :: m in entries ==> entries[m] <= calls[|calls| - 1].now
      ensures Traced(window, limit)
    {
      hide After, Live, OldestScore;
      forall t | NotAfter(calls, t) ensures LiveAt(t, window) == Live(After(calls, window, limit), t, window) {
        assert calls[|calls| - 1].now <= t;
        ExpiryLosesNothing(t, window);
      }
    }
  }

  // ---------------------------------------------------------------------------
  // The Python side

  datatype Decision = Decision(allowed: bool, remaining: int, retryAfterSeconds: int)

  /** `_decision`: the three integers of a reply, checked and converted. */
  function ToDecision(raw: seq<int>): Result<Decision, string> {
    if |raw| != 3 then Err("invalid rate limiter response")
    else if raw[0] !in {0, 1} || raw[1] < 0 || raw[2] < 0 then Err("invalid rate limiter response")
    else Ok(Decision(raw[0] == 1, raw[1], (raw[2] + 999) / 1000))
  }

  /** Anything but three integers, a flag and two that are not negative, is refused. */
  lemma ToDecisionIs(raw: seq<int>)
    ensures ToDecision(raw).Ok? <==> |raw| == 3 && 0 <= raw[0] <= 1 && raw[1] >= 0 && raw[2] >= 0
    ensures ToDecision(raw).Ok? ==>
              var d := ToDecision(raw).value;
              && (d.allowed <==> raw[0] == 1) && d.remaining == raw[1]
              && raw[2] <= d.retryAfterSeconds * 1000 < raw[2] + 1000
  {
  }

  function Raw(r: Reply): seq<int> { [if r.allowed then 1 else 0, r.remaining, r.retryMs] }

  /** Every reply of the scripts is a valid decision, and its hint in seconds is the shortest
      whole number of seconds that is never too short. */
  lemma HintCoversTheWait(live: Entries, now: int, window: int, limit: int, member: string)
    requires window > 0
    ensures var r := ConsumeReply(live, now, window, limit, member);
            var d := ToDecision(Raw(r));
            && d.Ok? && d.value.allowed == r.allowed && d.value.remaining == r.remaining
            && r.retryMs <= d.value.retryAfterSeconds * 1000 < r.retryMs + 1000
            && (!r.allowed ==> d.value.retryAfterSeconds >= 1)
    ensures ToDecision(Raw(InspectReply(live, now, window, limit))).Ok?
  {
  }

  /** Inspecting allows exactly when a fresh request at the same moment would be let in. */
  lemma InspectPredictsConsume(live: Entries, now: int, window: int, limit: int, newcomer: string)
    requires newcomer !in live
    ensures InspectReply(live, now, window, limit).allowed <==> ConsumeReply(live, now, window, limit, newcomer).allowed
    ensures !InspectReply(live, now, window, limit).allowed ==>
              InspectReply(live, now, window, limit) == ConsumeReply(live, now, window, limit, newcomer)
  {
  }

  // ---------------------------------------------------------------------------
  // Traces

  datatype Call = Request(now: int, member: string) | Look(now: int)

  ghost predicate NotAfter(calls: seq<Call>, t: int) { forall i :: 0 <= i < |calls| ==> calls[i].now <= t }

  ghost predicate ClockRuns(calls: seq<Call>) {
    forall i, j :: 0 <= i < j < |calls| ==> calls[i].now <= calls[j].now
  }

  function Step(entries: Entries, call: Call, window: int, limit: int): Entries {
    var live := Live(entries, call.now, window);
    if call.Look? then live else Consumed(live, call.now, limit, call.member)
  }

  /** This call admits a fresh request. */
  predicate Admits(entries: Entries, call: Call, window: int, limit: int) {
    var live := Live(entries, call.now, window);
    call.Request? && call.member !in live && |live| < limit
  }

  /** The entries after a trace from the empty key. */
  function After(calls: seq<Call>, window: int, limit: int): Entries {
    if calls == [] then map[]
    else Step(After(calls[..|calls| - 1], window, limit), calls[|calls| - 1], window, limit)
  }

  /** The times of the fresh admissions of a trace. */
  function Admissions(calls: seq<Call>, window: int, limit: int): seq<int> {
    if calls == [] then []
    else
      var front, last := calls[..|calls| - 1], calls[|calls| - 1];
      Admissions(front, window, limit)
      + if Admits(After(front, window, limit), last, window, limit) then [last.now] else []
  }

  lemma OneMoreCall(calls: seq<Call>, call: Call, window: int, limit: int)
    ensures After(calls + [call], window, limit) == Step(After(calls, window, limit), call, window, limit)
    ensures Admissions(calls + [call], window, limit) ==
              Admissions(calls, window, limit)
              + if Admits(After(calls, window, limit), call, window, limit) then [call.now] else []
  {
    assert (calls + [call])[..|calls|] == calls;
  }

  /** The number of times within [lo, hi). */
  function CountIn(times: seq<int>, lo: int, hi: int): nat {
    if times == [] then 0
    else CountIn(times[..|times| - 1], lo, hi) + if lo <= times[|times| - 1] < hi then 1 else 0
  }

  /** No half-open window holds more than `limit` of the times. */
  ghost predicate WithinLimit(times: seq<int>, window: int, limit: int) {
    forall lo, hi :: hi == lo + window ==> CountIn(times, lo, hi) <= limit
  }

  lemma {:induction false} CountMonotone(times: seq<int>, lo: int, hi: int, lo': int, hi': int)
    requires lo' <= lo && forall i :: 0 <= i < |times| && lo <= times[i] < hi ==> times[i] < hi'
    ensures CountIn(times, lo, hi) <= CountIn(times, lo', hi')
  {
    if times != [] {
      CountMonotone(times[..|times| - 1], lo, hi, lo', hi');
    }
  }

  lemma CountSnoc(times: seq<int>, x: int, lo: int, hi: int)
    ensures CountIn(times + [x], lo, hi) == CountIn(times, lo, hi) + if lo <= x < hi then 1 else 0
  {
    assert (times + [x])[..|times|] == times;
  }

  lemma LiveAfterAdding(before: Entries, now: int, t: int, window: int, member: string)
    requires now <= t && window > 0 && member !in Live(before, now, window)
    ensures var live := Live(before, now, window);
            var kept := Live(before, t, window);
            && member !in kept
            && Live(live[member := now], t, window) == if now > t - window then kept[member := now] else kept
  {
  }

  /** After any trace, the live entries at any later time are as many as the admissions of
      the window that ends there. */
  lemma {:induction false} LiveCountsAdmissions(calls: seq<Call>, window: int, limit: int, t: int)
    requires ClockRuns(calls) && window > 0
    requires NotAfter(calls, t)
    ensures |Live(After(calls, window, limit), t, window)| ==
              CountIn(Admissions(calls, window, limit), t - window + 1, t + 1)
    ensures forall i :: 0 <= i < |Admissions(calls, window, limit)| ==> Admissions(calls, window, limit)[i] <= t
    ensures forall m :: m in After(calls, window, limit) ==> After(calls, window, limit)[m] <= t
  {
    if calls != [] {
      var front, last := calls[..|calls| - 1], calls[|calls| - 1];
      LiveCountsAdmissions(front, window, limit, t);
      LiveCountsAdmissions(front, window, limit, last.now);
      var before := After(front, window, limit);
      var live := Live(before, last.now, window);
      LiveTwice(before, last.now, t, window);
      if Admits(before, last, window, limit) {
        CountSnoc(Admissions(front, window, limit), last.now, t - window + 1, t + 1);
        LiveAfterAdding(before, last.now, t, window, last.member);
      } else {
        assert Admissions(calls, window, limit) == Admissions(front, window, limit);
        assert After(calls, window, limit) == live;
      }
    }
  }

  /** For every trace on a running clock with a fixed limit and window, at most `limit`
      fresh requests are admitted in any half-open window of that length. */
  lemma {:induction false} EveryWindowIsWithinTheLimit(calls: seq<Call>, window: int, limit: int, start: int)
    requires ClockRuns(calls) && window > 0 && limit >= 0
    ensures CountIn(Admissions(calls, window, limit), start, start + window) <= limit
  {
    if calls != [] {
      var front, last := calls[..|calls| - 1], calls[|calls| - 1];
      EveryWindowIsWithinTheLimit(front, window, limit, start);
      if Admits(After(front, window, limit), last, window, limit) {
        var earlier := Admissions(front, window, limit);
        CountSnoc(earlier, last.now, start, start + window);
        if start <= last.now < start + window {
          LiveCountsAdmissions(front, window, limit, last.now);
          CountMonotone(earlier, start, start + window, last.now - window + 1, last.now + 1);
        }
      } else {
        assert Admissions(calls, window, limit) == Admissions(front, window, limit);
      }
    }
  }

  lemma ClockRunsOn(calls: seq<Call>, call: Call)
    requires ClockRuns(calls) && NotAfter(calls, call.now)
    ensures ClockRuns(calls + [call])
  {
  }

  lemma EveryTraceIsWithinTheLimit(calls: seq<Call>, window: int, limit: int)
    requires ClockRuns(calls) && window > 0 && limit >= 0
    ensures WithinLimit(Admissions(calls, window, limit), window, limit)
  {
    forall lo, hi | hi == lo + window ensures CountIn(Admissions(calls, window, limit), lo, hi) <= limit {
      EveryWindowIsWithinTheLimit(calls, window, limit, lo);
    }
  }

  /** The key never holds more live entries than the limit. */
  lemma LiveIsWithinTheLimit(calls: seq<Call>, window: int, limit: int, t: int)
    requires ClockRuns(calls) && window > 0 && limit >= 0
    requires NotAfter(calls, t)
    ensures |Live(After(calls, window, limit), t, window)| <= limit
  {
    LiveCountsAdmissions(calls, window, limit, t);
    EveryWindowIsWithinTheLimit(calls, window, limit, t - window + 1);
  }

  /** Replaying a request id that is still live is allowed and consumes nothing: neither the
      entries nor the count of admissions change. */
  lemma ReplayIsFree(calls: seq<Call>, window: int, limit: int, now: int, member: string)
    requires member in Live(After(calls, window, limit), now, window)
    ensures var live := Live(After(calls, window, limit), now, window);
            && ConsumeReply(live, now, window, limit, member).allowed
            && After(calls + [Request(now, member)], window, limit) == live
            && Admissions(calls + [Request(now, member)], window, limit) == Admissions(calls, window, limit)
  {
    assert (calls + [Request(now, member)])[..|calls|] == calls;
  }

  // ---------------------------------------------------------------------------
  // The retry hint

  /** The entries after further calls. */
  function Onwards(entries: Entries, calls: seq<Call>, window: int, limit: int): Entries {
    if calls == [] then entries
    else Step(Onwards(entries, calls[..|calls| - 1], window, limit), calls[|calls| - 1], window, limit)
  }

  /** None of the further calls admits a fresh request. */
  ghost predicate Quiet(entries: Entries, calls: seq<Call>, window: int, limit: int) {
    forall i :: 0 <= i < |calls| ==> !Admits(Onwards(entries, calls[..i], window, limit), calls[i], window, limit)
  }

  lemma {:induction false} QuietChangesNothing(entries: Entries, calls: seq<Call>, window: int, limit: int, t: int)
    requires Quiet(entries, calls, window, limit)
    requires NotAfter(calls, t)
    ensures Live(Onwards(entries, calls, window, limit), t, window) == Live(entries, t, window)
  {
    if calls != [] {
      var front, last := calls[..|calls| - 1], calls[|calls| - 1];
      forall i | 0 <= i < |front|
        ensures !Admits(Onwards(entries, front[..i], window, limit), front[i], window, limit)
      {
        assert front[..i] == calls[..i];
      }
      QuietChangesNothing(entries, front, window, limit, t);
      LiveTwice(Onwards(entries, front, window, limit), last.now, t, window);
    }
  }

  /** A denied caller's wait is exact: as long as nobody takes the slot first, every fresh
      request before it is over is denied, and the first one at or after it is allowed. */
  lemma RetryIsExact(entries: Entries, now: int, window: int, limit: int, later: seq<Call>, t: int, newcomer: string)
    requires window > 0 && limit >= 1 && now <= t
    requires forall m :: m in entries ==> entries[m] <= now
    requires |Live(entries, now, window)| == limit
    requires Quiet(entries, later, window, limit) && forall i :: 0 <= i < |later| ==> now <= later[i].now <= t
    requires newcomer !in Live(entries, t, window)
    ensures var wait := RetryAfter(Live(entries, now, window), now, window);
            ConsumeReply(Live(Onwards(entries, later, window, limit), t, window), t, window, limit, newcomer).allowed
            <==> t >= now + wait
  {
    QuietChangesNothing(entries, later, window, limit, t);
    var live, live' := Live(entries, now, window), Live(entries, t, window);
    assert live != map[];
    var oldest := OldestScore(live);
    if t >= oldest + window {
      var m :| m in live && live[m] == oldest;
      assert m !in live';
      assert live'.Keys <= live.Keys - {m};
      SubsetSize(live'.Keys, live.Keys - {m});
    } else {
      assert live' == live;
    }
  }

  /** The same at the end of any trace that was just denied. */
  lemma DeniedCallersWaitExactly(calls: seq<Call>, now: int, window: int, limit: int, member: string,
                                 later: seq<Call>, t: int, newcomer: string)
    requires ClockRuns(calls) && window > 0 && limit >= 1 && now <= t
    requires NotAfter(calls, now)
    requires var live := Live(After(calls, window, limit), now, window);
             !ConsumeReply(live, now, window, limit, member).allowed
    requires Quiet(After(calls, window, limit), later, window, limit)
    requires forall i :: 0 <= i < |later| ==> now <= later[i].now <= t
    requires newcomer !in Live(After(calls, window, limit), t, window)
    ensures var entries := After(calls, window, limit);
            var wait := ConsumeReply(Live(entries, now, window), now, window, limit, member).retryMs;
            ConsumeReply(Live(Onwards(entries, later, window, limit), t, window), t, window, limit, newcomer).allowed
            <==> t >= now + wait
  {
    LiveIsWithinTheLimit(calls, window, limit, now);
    LiveCountsAdmissions(calls, window, limit, now);
    RetryIsExact(After(calls, window, limit), now, window, limit, later, t, newcomer);
  }
}
