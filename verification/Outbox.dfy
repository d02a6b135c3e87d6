/** Emails waiting to be sent: claims, retries and the automatic ladder
    (services/core/internal/store/notifications.sql.go, services/core/cmd/api/automation.go). */
module Outbox {
  import opened Batch
  import opened Common

  datatype State = Queued | Processing | Failed | Sent | Cancelled

  /** A notification_outbox row, as far as delivery goes. Times in seconds. */
  datatype Job = Job(state: State, attempts: nat, autoRetries: nat, due: int, claimed: int)

  const MAX_ATTEMPTS := 8
  const MAX_RETRIES := 3
  const STALE := 300
  const HOUR := 3600

  datatype Event =
    | Claim(now: int)
    | Fail(now: int)
    | Exhaust
    | MarkSent
    | MarkStale
    | CancelPending
    | CancelQueued
    | Forget
    | AutoRetry(now: int)

  predicate Claimable(j: Job, now: int) {
    j.attempts < MAX_ATTEMPTS && ((j.state == Queued && j.due <= now) || (j.state == Processing && j.claimed < now - STALE))
  }

  function Pow2(n: nat): nat { if n == 0 then 1 else 2 * Pow2(n - 1) }

  /** The wait after a failed attempt: doubling from a minute up to an hour. */
  function Backoff(attempts: nat): int {
    var wait := 30 * Pow2(if attempts < 7 then attempts else 7);
    if wait < HOUR then wait else HOUR
  }

  function Ladder(autoRetries: nat): int {
    if autoRetries == 0 then HOUR else if autoRetries == 1 then 6 * HOUR else 24 * HOUR
  }

  predicate RetryDue(j: Job, now: int) {
    j.state == Failed && j.autoRetries < MAX_RETRIES && j.due < now - Ladder(j.autoRetries)
  }

  function Step(j: Job, e: Event): Job {
    match e
    case Claim(now) => if Claimable(j, now) then j.(state := Processing, claimed := now, attempts := j.attempts + 1) else j
    case Fail(now) =>
      if j.state == Processing
      then j.(state := if j.attempts >= MAX_ATTEMPTS then Failed else Queued, due := now + Backoff(j.attempts)) else j
    case Exhaust => if j.attempts >= MAX_ATTEMPTS && j.state in {Queued, Processing} then j.(state := Failed) else j
    case MarkSent => if j.state == Processing then j.(state := Sent) else j
    case MarkStale => if j.state == Processing then j.(state := Cancelled) else j
    case CancelPending => if j.state in {Queued, Processing} then j.(state := Cancelled) else j
    case CancelQueued => if j.state == Queued then j.(state := Cancelled) else j
    case Forget => if j.state in {Queued, Failed} then j.(state := Cancelled) else j
    case AutoRetry(now) =>
      if RetryDue(j, now) then j.(state := Queued, attempts := 0, due := now, autoRetries := j.autoRetries + 1) else j
  }

  function Run(j: Job, es: seq<Event>): Job {
    if es == [] then j else Step(Run(j, es[..|es| - 1]), es[|es| - 1])
  }

  predicate Claims(j: Job, e: Event) { e.Claim? && Claimable(j, e.now) }

  /** How often a run claims the row for delivery. */
  function ClaimCount(j: Job, es: seq<Event>): nat {
    if es == [] then 0
    else ClaimCount(j, es[..|es| - 1]) + (if Claims(Run(j, es[..|es| - 1]), es[|es| - 1]) then 1 else 0)
  }

  /** A row as it is enqueued. */
  predicate Fresh(j: Job) { j.state == Queued && j.attempts == 0 && j.autoRetries == 0 }

  ghost predicate Ok(j: Job) {
    && j.attempts <= MAX_ATTEMPTS && j.autoRetries <= MAX_RETRIES
    && (j.state == Failed ==> j.attempts == MAX_ATTEMPTS)
  }

  /** The deliveries a row still has ahead of it at most. */
  function Left(j: Job): int {
    MAX_ATTEMPTS * (MAX_RETRIES - j.autoRetries) + (MAX_ATTEMPTS - j.attempts)
  }

  lemma StepCounts(j: Job, e: Event)
    requires Ok(j)
    ensures Ok(Step(j, e))
    ensures Left(Step(j, e)) == Left(j) - (if Claims(j, e) then 1 else 0) >= 0
    ensures j.autoRetries <= Step(j, e).autoRetries
    ensures Step(j, e).autoRetries == j.autoRetries ==> j.attempts <= Step(j, e).attempts
  {}

  /** Every claim uses up one of exactly 8 x (1 + 3), an automatic retry none:
      no run delivers one row more often, and the row itself tells how often. */
  lemma {:induction false} WorkIsBounded(j: Job, es: seq<Event>)
    requires Fresh(j)
    ensures ClaimCount(j, es) == MAX_ATTEMPTS * Run(j, es).autoRetries + Run(j, es).attempts
    ensures ClaimCount(j, es) <= MAX_ATTEMPTS * (1 + MAX_RETRIES)
    ensures Ok(Run(j, es))
  {
    if es != [] {
      WorkIsBounded(j, es[..|es| - 1]);
      StepCounts(Run(j, es[..|es| - 1]), es[|es| - 1]);
    }
  }

  /** Sent and cancelled are final: nothing claims or changes the row again. */
  lemma {:induction false} FinalStays(j: Job, es: seq<Event>)
    requires j.state in {Sent, Cancelled}
    ensures Run(j, es) == j && ClaimCount(j, es) == 0
  {
    if es != [] {
      FinalStays(j, es[..|es| - 1]);
    }
  }

  /** One delivery, told in full: a queued email is claimed when it is due and a
      claimed one again five minutes later, eight times at most. A failed attempt
      puts it back one, two, four minutes later and so on, at most an hour; the
      eighth ends it. */
  lemma DeliveredExactly(j: Job, now: int)
    ensures var c := Step(j, Claim(now));
      var f := Step(j, Fail(now));
      && c == (if j.attempts < 8 && ((j.state == Queued && now >= j.due) || (j.state == Processing && now - j.claimed > 300))
               then j.(state := Processing, claimed := now, attempts := j.attempts + 1) else j)
      && (j.state != Processing ==> f == j)
      && (j.state == Processing ==>
            && f == j.(state := if j.attempts >= 8 then Failed else Queued, due := f.due)
            && (1 <= j.attempts <= 8 ==> f.due - now == [60, 120, 240, 480, 960, 1920, 3600, 3600][j.attempts - 1]))
  {
    assert Pow2(1) == 2 && Pow2(2) == 4 && Pow2(3) == 8 && Pow2(4) == 16 && Pow2(5) == 32 && Pow2(6) == 64 && Pow2(7) == 128;
  }

  /** How a row comes to its end without a failed attempt: from which states it
      is sent, found stale, called off, or forgotten with its person. */
  lemma EndedExactly(j: Job)
    ensures Step(j, MarkSent) == if j.state == Processing then j.(state := Sent) else j
    ensures Step(j, MarkStale) == if j.state == Processing then j.(state := Cancelled) else j
    ensures Step(j, CancelPending) == if j.state == Queued || j.state == Processing then j.(state := Cancelled) else j
    ensures Step(j, CancelQueued) == if j.state == Queued then j.(state := Cancelled) else j
    ensures Step(j, Forget) == if j.state == Queued || j.state == Failed then j.(state := Cancelled) else j
    ensures Step(j, Exhaust) ==
      if (j.state == Queued || j.state == Processing) && j.attempts >= 8 then j.(state := Failed) else j
  {}

  /** A failed email is queued again one, six and twenty-four hours after it was
      last due, with all its attempts, and then no more. */
  lemma AutoRetriedExactly(j: Job, now: int)
    ensures Step(j, AutoRetry(now)) ==
      if j.state == Failed
         && ((j.autoRetries == 0 && now - j.due > 3_600) || (j.autoRetries == 1 && now - j.due > 21_600)
             || (j.autoRetries == 2 && now - j.due > 86_400))
      then Job(Queued, 0, j.autoRetries + 1, now, j.claimed) else j
  {}

  /** What claiming orders by, for the rows that can be claimed. */
  function ClaimTime(j: Job, now: int): Option<int> { if Claimable(j, now) then Some(j.due) else None }

  function ClaimTimes(jobs: seq<Job>, now: int): seq<Option<int>> {
    seq(|jobs|, i requires 0 <= i < |jobs| => ClaimTime(jobs[i], now))
  }

  class Table {
    var jobs: seq<Job>

    constructor ()
      ensures jobs == []
    {
      jobs := [];
    }

    /** Adds a notification that is due from a time on. */
    method Enqueue(due: int)
      modifies this
      ensures jobs == old(jobs) + [Job(Queued, 0, 0, due, 0)]
    {
      jobs := jobs + [Job(Queued, 0, 0, due, 0)];
    }

    /** claimDueNotifications: the longest due of the rows that can be claimed. */
    method ClaimDue(now: int, limit: nat) returns (ids: seq<nat>)
      modifies this
      ensures Taken(ids, ClaimTimes(old(jobs), now), limit) && |jobs| == |old(jobs)|
      ensures forall i: nat | i < |jobs| ::
        jobs[i] == if i in ids then Step(old(jobs)[i], Claim(now)) else old(jobs)[i]
    {
      var times := [];
      for i: nat := 0 to |jobs|
        invariant |times| == i && forall k: nat | k < i :: times[k] == ClaimTime(jobs[k], now)
      {
        var j, time := jobs[i], None;
        if j.attempts < MAX_ATTEMPTS
           && ((j.state == Queued && j.due <= now) || (j.state == Processing && j.claimed < now - STALE)) {
          time := Some(j.due);
        }
        times := times + [time];
      }
      assert times == ClaimTimes(jobs, now);
      ids := TakeOldest(times, limit);
      for k := 0 to |ids|
        invariant |jobs| == |old(jobs)|
        invariant forall i: nat | i < |jobs| ::
          jobs[i] == if i in ids[..k] then Step(old(jobs)[i], Claim(now)) else old(jobs)[i]
      {
        var j := jobs[ids[k]];
        assert j == old(jobs)[ids[k]] && ClaimTimes(old(jobs), now)[ids[k]].Some?;
        jobs := jobs[ids[k] := j.(state := Processing, claimed := now, attempts := j.attempts + 1)];
      }
    }

    /** markNotificationFailed */
    method MarkFailed(i: nat, now: int)
      requires i < |jobs|
      modifies this
      ensures jobs == old(jobs)[i := Step(old(jobs)[i], Fail(now))]
    {
      var j := jobs[i];
      if j.state == Processing {
        var state := Queued;
        if j.attempts >= MAX_ATTEMPTS {
          state := Failed;
        }
        j := j.(state := state, due := now + Backoff(j.attempts));
      }
      jobs := jobs[i := j];
    }

    /** failExhaustedNotifications */
    method FailExhausted()
      modifies this
      ensures |jobs| == |old(jobs)| && forall i | 0 <= i < |jobs| :: jobs[i] == Step(old(jobs)[i], Exhaust)
    {
      for i := 0 to |jobs|
        invariant |jobs| == |old(jobs)|
        invariant forall k | 0 <= k < |jobs| :: jobs[k] == if k < i then Step(old(jobs)[k], Exhaust) else old(jobs)[k]
      {
        if jobs[i].attempts >= MAX_ATTEMPTS && (jobs[i].state == Queued || jobs[i].state == Processing) {
          jobs := jobs[i := jobs[i].(state := Failed)];
        }
      }
    }

    /** autoRetryFailures: back in the queue up to three times, after longer
        and longer waits. */
    method AutoRetryFailures(now: int)
      modifies this
      ensures |jobs| == |old(jobs)| && forall i | 0 <= i < |jobs| :: jobs[i] == Step(old(jobs)[i], AutoRetry(now))
    {
      for i := 0 to |jobs|
        invariant |jobs| == |old(jobs)|
        invariant forall k | 0 <= k < |jobs| :: jobs[k] == if k < i then Step(old(jobs)[k], AutoRetry(now)) else old(jobs)[k]
      {
        var j := jobs[i];
        if j.state == Failed && j.autoRetries < MAX_RETRIES && j.due < now - Ladder(j.autoRetries) {
          jobs := jobs[i := j.(state := Queued, attempts := 0, due := now, autoRetries := j.autoRetries + 1)];
        }
      }
    }
  }
}
