/**
 What holds for a message whose deliveries meet the timing assumption on the
 reclaim window: each applies its mark, or is dropped, within the window of its
 claim, time spent in the batch and the queue included. What happens to other
 messages does not matter.
 */
module OutboxLease {
  import opened Wrappers
  import opened OutboxTable
  import opened OutboxProtocol
  import opened OutboxSafety

  // --- The invariant, one row and one job at a time ------------------------

  /** The attempt ceiling: reached exactly by retiring the row. */
  ghost predicate Ceiling(c: Config, r: Row, l: Ledger) {
    if c.maxAttempts < 1 then r.attempts == 0 && l.processedMarks == 0 && !l.exhausted
    else
      && r.attempts + l.processedMarks <= c.maxAttempts
      && (r.processedAt.None? ==> r.attempts < c.maxAttempts && l.processedMarks == 0)
      && (r.attempts == c.maxAttempts <==> l.exhausted)
  }

  /** The earliest next attempt after the failure recorded at position i, which is failure number i + 1. */
  ghost function RetryAt(c: Config, failures: seq<Time>, i: nat): Time
    requires i < |failures|
  {
    failures[i] + Delay(c.interval, i + 1)
  }

  /** The first n failures all allow an attempt at time t. */
  ghost predicate Allows(c: Config, failures: seq<Time>, n: nat, t: Time) {
    n <= |failures| && forall i: nat :: i < n ==> RetryAt(c, failures, i) <= t
  }

  /** Recorded failures keep the retry schedule between themselves and towards the next attempt. */
  ghost predicate FailuresSpaced(c: Config, r: Row, l: Ledger) {
    && |l.failures| == r.attempts
    && (forall n: nat :: n < |l.failures| ==> Allows(c, l.failures, n, l.failures[n]))
    && (r.processedAt.None? ==> Allows(c, l.failures, |l.failures|, r.nextAttemptAt))
  }

  /** A claim made after k failures comes no earlier than those failures allow. */
  ghost predicate ClaimsSpaced(c: Config, l: Ledger) {
    forall n: nat :: n < |l.claims| ==> Allows(c, l.failures, l.claims[n].attempts, l.claims[n].at)
  }

  ghost predicate ClaimsPast(l: Ledger, now: Time) {
    && (forall n: nat :: n < |l.claims| ==> l.claims[0].at <= l.claims[n].at <= now)
    && (|l.failures| > 0 ==> |l.claims| > 0 && l.claims[0].at <= l.failures[0])
  }

  ghost predicate RowOk(c: Config, r: Row, l: Ledger, now: Time) {
    Ceiling(c, r, l) && FailuresSpaced(c, r, l) && ClaimsSpaced(c, l) && ClaimsPast(l, now)
  }

  /** The job has seen the row's current attempts and its claim is the latest. */
  ghost predicate Leased(c: Config, r: Row, l: Ledger, job: Job) {
    && r.processedAt.None?
    && r.attempts == job.snapshot < c.maxAttempts
    && r.lockedAt == Some(job.claimedAt)
    && r.nextAttemptAt <= job.claimedAt
    && |l.claims| > 0 && l.claims[|l.claims| - 1] == Claimed(job.claimedAt, job.snapshot)
  }

  ghost predicate OneHolder(jobs: map<nat, Job>, id: Uuid) {
    forall j, k :: j in jobs && k in jobs && jobs[j].id == id && jobs[k].id == id ==> j == k
  }

  ghost predicate HoldersLeased(c: Config, s: State, id: Uuid)
    requires id in s.rows && id in s.ledger
  {
    forall j :: j in s.jobs && s.jobs[j].id == id ==> Leased(c, s.rows[id], s.ledger[id], s.jobs[j])
  }

  ghost predicate LeaseInv(c: Config, s: State, id: Uuid) {
    && WellFormed(s)
    && OneHolder(s.jobs, id)
    && (id in s.rows ==> RowOk(c, s.rows[id], s.ledger[id], s.now) && HoldersLeased(c, s, id))
  }

  // --- What the two statements do to one row -------------------------------

  lemma RowClaimed(c: Config, r: Row, l: Ledger, now: Time)
    requires RowOk(c, r, l, now) && Eligible(r, now, c.window, c.maxAttempts)
    ensures RowOk(c, r.(lockedAt := Some(now)), l.(claims := l.claims + [Claimed(now, r.attempts)]), now)
  {
    assert Allows(c, l.failures, |l.failures|, now);
  }

  lemma AllowsMore(c: Config, failures: seq<Time>, n: nat, t: Time, now: Time)
    requires Allows(c, failures, n, t)
    ensures Allows(c, failures + [now], n, t)
  {
    forall i: nat | i < n
      ensures RetryAt(c, failures + [now], i) <= t
    {
      assert RetryAt(c, failures, i) <= t;
    }
  }

  lemma RowMarked(c: Config, r: Row, l: Ledger, job: Job, clientNow: Time, now: Time)
    requires RowOk(c, r, l, now) && Leased(c, r, l, job) && job.phase.Published() && job.claimedAt <= now
    ensures var m := MarkOf(c, job, clientNow);
            RowOk(c, Marked(r, m, now), Recorded(l, m, now), now)
  {
    if job.phase.Refused? {
      RowFailed(c, r, l, job, now);
    }
  }

  lemma RowFailed(c: Config, r: Row, l: Ledger, job: Job, now: Time)
    requires RowOk(c, r, l, now) && Leased(c, r, l, job) && job.phase.Refused? && job.claimedAt <= now
    ensures var m := MarkOf(c, job, now);
            RowOk(c, Marked(r, m, now), Recorded(l, m, now), now)
  {
    var f, f' := l.failures, l.failures + [now];
    var last := l.claims[|l.claims| - 1];
    assert Allows(c, f, |f|, last.at);
    assert Allows(c, f, |f|, now);
    forall n: nat | n < |f'|
      ensures Allows(c, f', n, f'[n])
    {
      if n < |f| {
        AllowsMore(c, f, n, f[n], now);
      } else {
        AllowsMore(c, f, n, now, now);
      }
    }
    forall n: nat | n < |l.claims|
      ensures Allows(c, f', l.claims[n].attempts, l.claims[n].at)
    {
      AllowsMore(c, f, l.claims[n].attempts, l.claims[n].at, now);
    }
    RetryScheduled(c, f, now);
  }

  /** Failure number k at `now` followed by next_attempt_at = now + backoff(k) keeps the schedule. */
  lemma RetryScheduled(c: Config, f: seq<Time>, now: Time)
    requires Allows(c, f, |f|, now)
    ensures Allows(c, f + [now], |f| + 1, now + Delay(c.interval, |f| + 1))
  {
    forall i: nat | i < |f| + 1
      ensures RetryAt(c, f + [now], i) <= now + Delay(c.interval, |f| + 1)
    {
      if i < |f| {
        assert RetryAt(c, f, i) <= now;
      }
    }
  }

  // --- Every step keeps it --------------------------------------------------

  ghost predicate SameHistory(l: Ledger, l': Ledger) {
    && l'.claims == l.claims && l'.failures == l.failures
    && l'.processedMarks == l.processedMarks && l'.exhausted == l.exhausted
  }

  /** At most phases and the end of jobs of the message have changed, and time has passed. */
  ghost predicate LeavesAlone(s: State, s': State, id: Uuid) {
    && s.now <= s'.now
    && (id in s.rows <==> id in s'.rows) && (id in s.ledger <==> id in s'.ledger)
    && (id in s.rows ==> s'.rows[id] == s.rows[id])
    && (id in s.ledger ==> SameHistory(s.ledger[id], s'.ledger[id]))
    && forall j :: j in s'.jobs && s'.jobs[j].id == id ==>
                     j in s.jobs && s'.jobs[j] == s.jobs[j].(phase := s'.jobs[j].phase)
  }

  lemma LeaseFrame(c: Config, s: State, s': State, id: Uuid)
    requires LeaseInv(c, s, id) && WellFormed(s') && LeavesAlone(s, s', id)
    ensures LeaseInv(c, s', id)
  {
    assert id in s'.rows ==> id in s.ledger && id in s'.ledger;
    hide WellFormed;
    if id in s'.rows {
      forall j | j in s'.jobs && s'.jobs[j].id == id
        ensures Leased(c, s'.rows[id], s'.ledger[id], s'.jobs[j])
      {
        assert Leased(c, s.rows[id], s.ledger[id], s.jobs[j]);
      }
    }
  }

  /** The steps that concern the message: its commit, a claim of it, and its marks. */
  predicate Concerns(s: State, st: Step, id: Uuid) {
    match st
    case Commit(msg) => msg.id == id
    case Claim(_, returned) => id in returned
    case MarkApplied(j, _) => AwaitsMark(s, j) && s.jobs[j].id == id
    case _ => false
  }

  lemma UnconcernedStep(c: Config, s: State, st: Step, id: Uuid)
    requires !Concerns(s, st, id)
    ensures LeavesAlone(s, Apply(c, s, st), id)
  {
    hide LeavesAlone, Drop, AfterClaim, BatchOf, OwnedBy, QueueOf, IsFirst, Idle;
    if Enabled(c, s, st) {
      match st
      case Claim(owner, returned) => UnconcernedClaim(s, owner, returned, id);
      case ReplyLost(owner) => UnconcernedDrop(s, BatchOf(s, owner), id);
      case PoolFull(owner) => UnconcernedDrop(s, BatchOf(s, owner), id);
      case MarkLost(j) => UnconcernedDrop(s, {j}, id);
      case Crash(owner) => UnconcernedDrop(s, OwnedBy(s, owner), id);
      case Commit(msg) => UnconcernedSame(s, AfterCommit(s, msg), id);
      case Submit(j) => UnconcernedJob(s, WithPhase(s, j, Queued), j, Queued, id);
      case Start(j, worker) => UnconcernedJob(s, WithPhase(s, j, Running(worker)), j, Running(worker), id);
      case Publish(j, inTopic, inDlq, err) =>
        var phase := Outcome(s.jobs[j].phase.worker, err);
        UnconcernedJob(s, AfterPublish(s, j, inTopic, inDlq, err), j, phase, id);
      case MarkApplied(j, clientNow) => UnconcernedMark(c, s, j, clientNow, id);
      case Tick(d) => UnconcernedSame(s, s.(now := s.now + d), id);
    } else {
      UnconcernedSame(s, s, id);
    }
  }

  lemma UnconcernedSame(s: State, s': State, id: Uuid)
    requires s'.jobs == s.jobs && s.now <= s'.now
    requires (id in s'.rows <==> id in s.rows) && (id in s.rows ==> s'.rows[id] == s.rows[id])
    requires (id in s'.ledger <==> id in s.ledger) && (id in s.ledger ==> s'.ledger[id] == s.ledger[id])
    ensures LeavesAlone(s, s', id)
  {
  }

  lemma UnconcernedJob(s: State, s': State, j: nat, phase: Phase, id: Uuid)
    requires j in s.jobs && s'.jobs == s.jobs[j := s.jobs[j].(phase := phase)]
    requires s'.now == s.now && s'.rows == s.rows && s'.ledger.Keys == s.ledger.Keys
    requires id in s.ledger ==> SameHistory(s.ledger[id], s'.ledger[id])
    ensures LeavesAlone(s, s', id)
  {
  }

  lemma UnconcernedDrop(s: State, gone: set<nat>, id: Uuid)
    ensures LeavesAlone(s, Drop(s, gone), id)
  {
  }

  lemma UnconcernedMark(c: Config, s: State, j: nat, clientNow: Time, id: Uuid)
    requires AwaitsMark(s, j) && s.jobs[j].id != id
    ensures LeavesAlone(s, AfterMark(c, s, j, clientNow), id)
  {
  }

  lemma UnconcernedClaim(s: State, owner: nat, returned: seq<Uuid>, id: Uuid)
    requires (forall x :: x in returned ==> x in s.rows) && id !in returned
    ensures LeavesAlone(s, AfterClaim(s, owner, returned), id)
  {
    assert id !in Ids(returned);
    NewJobsAvoid(s, owner, returned, id);
  }

  lemma LeaseCommit(c: Config, s: State, msg: Message)
    requires LeaseInv(c, s, msg.id) && msg.id !in s.rows
    ensures LeaseInv(c, AfterCommit(s, msg), msg.id)
  {
    WellFormedCommit(s, msg);
    assert forall j :: j in s.jobs ==> JobOk(s, j);
  }

  /** The point of the window: a claim cannot reach a row that a live job holds. */
  lemma HeldNotEligible(c: Config, s: State, j: nat)
    requires j in s.jobs && LeaseInv(c, s, s.jobs[j].id) && Timely(c, s, s.jobs[j].id)
    ensures s.jobs[j].id in s.rows && !Eligible(s.rows[s.jobs[j].id], s.now, c.window, c.maxAttempts)
  {
    assert JobOk(s, j);
    assert Leased(c, s.rows[s.jobs[j].id], s.ledger[s.jobs[j].id], s.jobs[j]);
  }

  lemma LeaseClaim(c: Config, s: State, owner: nat, returned: seq<Uuid>, id: Uuid)
    requires LeaseInv(c, s, id) && Timely(c, s, id) && Claimable(c, s, returned) && id in returned
    ensures LeaseInv(c, AfterClaim(s, owner, returned), id)
  {
    WellFormedClaim(s, owner, returned);
    forall j | j in s.jobs
      ensures s.jobs[j].id != id
    {
      if s.jobs[j].id == id {
        HeldNotEligible(c, s, j);
      }
    }
    assert id in Ids(returned);
    RowClaimed(c, s.rows[id], s.ledger[id], s.now);
    hide RowOk, WellFormed;
    NewHolder(c, s, owner, returned, id);
  }

  lemma NewHolder(c: Config, s: State, owner: nat, returned: seq<Uuid>, id: Uuid)
    requires s.ledger.Keys == s.rows.Keys && Claimable(c, s, returned) && id in returned && id in Ids(returned)
    requires forall j :: j in s.jobs ==> s.jobs[j].id != id
    ensures var s' := AfterClaim(s, owner, returned);
            id in s'.rows && id in s'.ledger && OneHolder(s'.jobs, id) && HoldersLeased(c, s', id)
  {
    var i :| 0 <= i < |returned| && returned[i] == id;
    assert Eligible(s.rows[id], s.now, c.window, c.maxAttempts);
    OnlyNewJob(s, owner, returned, i);
    ClaimedRow(s, owner, returned, id);
    hide NewJobs, Claimable, AfterClaim, Ids, OneHolder, HoldersLeased;
    SoleHolderLeased(c, s, AfterClaim(s, owner, returned), NewJobs(s, owner, returned), s.nextJob + i, id);
  }

  lemma SoleHolderLeased(c: Config, s: State, s': State, added: map<nat, Job>, j: nat, id: Uuid)
    requires s'.jobs == s.jobs + added && id in s'.rows && id in s'.ledger
    requires forall k :: k in s.jobs ==> s.jobs[k].id != id
    requires forall k :: k in added && added[k].id == id ==> k == j
    requires j in added && Leased(c, s'.rows[id], s'.ledger[id], added[j])
    ensures OneHolder(s'.jobs, id) && HoldersLeased(c, s', id)
  {
  }

  lemma ClaimedRow(s: State, owner: nat, returned: seq<Uuid>, id: Uuid)
    requires id in Ids(returned) && id in s.ledger && forall x :: x in returned ==> x in s.rows
    ensures var s' := AfterClaim(s, owner, returned);
            && s'.jobs == s.jobs + NewJobs(s, owner, returned)
            && id in s'.rows && s'.rows[id] == s.rows[id].(lockedAt := Some(s.now))
            && id in s'.ledger && s'.ledger[id].claims == s.ledger[id].claims + [Claimed(s.now, s.rows[id].attempts)]
  {
  }

  lemma OnlyNewJob(s: State, owner: nat, returned: seq<Uuid>, i: nat)
    requires forall a, b :: 0 <= a < b < |returned| ==> returned[a] != returned[b]
    requires i < |returned| && forall x :: x in returned ==> x in s.rows
    ensures var jobs, j := NewJobs(s, owner, returned), s.nextJob + i;
            && j in jobs && jobs[j] == Job(returned[i], s.rows[returned[i]].attempts, s.now, owner, InBatch)
            && forall k :: k in jobs && jobs[k].id == returned[i] ==> k == j
  {
    var jobs := NewJobs(s, owner, returned);
    forall k | k in jobs && jobs[k].id == returned[i]
      ensures k == s.nextJob + i
    {
      assert returned[k - s.nextJob] == returned[i];
    }
  }

  lemma LeaseMark(c: Config, s: State, j: nat, clientNow: Time)
    requires AwaitsMark(s, j) && LeaseInv(c, s, s.jobs[j].id)
    ensures LeaseInv(c, AfterMark(c, s, j, clientNow), s.jobs[j].id)
  {
    var id := s.jobs[j].id;
    WellFormedMark(c, s, j, clientNow);
    assert JobOk(s, j) && Leased(c, s.rows[id], s.ledger[id], s.jobs[j]);
    hide WellFormed, Leased;
    RowMarked(c, s.rows[id], s.ledger[id], s.jobs[j], clientNow, s.now);
    hide RowOk;
  }

  lemma LeaseStep(c: Config, s: State, st: Step, id: Uuid)
    requires LeaseInv(c, s, id) && Timely(c, s, id)
    ensures LeaseInv(c, Apply(c, s, st), id)
  {
    if !Concerns(s, st, id) {
      WellFormedStep(c, s, st);
      UnconcernedStep(c, s, st, id);
      hide LeavesAlone, Apply;
      LeaseFrame(c, s, Apply(c, s, st), id);
    } else if Enabled(c, s, st) {
      hide LeaseInv, Timely;
      match st
      case Commit(msg) => LeaseCommit(c, s, msg);
      case Claim(owner, returned) => LeaseClaim(c, s, owner, returned, id);
      case MarkApplied(j, clientNow) => LeaseMark(c, s, j, clientNow);
      case _ =>
    }
  }

  lemma {:induction false} LeaseRun(c: Config, start: Time, steps: seq<Step>, id: Uuid)
    requires TimelyRun(c, start, steps, id)
    ensures LeaseInv(c, Run(c, start, steps), id)
  {
    if |steps| > 0 {
      var before := steps[..|steps| - 1];
      LeaseRun(c, start, before, id);
      LeaseStep(c, Run(c, start, before), steps[|steps| - 1], id);
    }
  }

  // --- The theorems, one message at a time ----------------------------------

  /** No two live jobs hold the message, and its holder's snapshot is the row's current attempt count. */
  lemma LeaseExclusion(c: Config, start: Time, steps: seq<Step>, id: Uuid)
    requires TimelyRun(c, start, steps, id)
    ensures OneHolder(Run(c, start, steps).jobs, id)
    ensures var s := Run(c, start, steps);
            forall j :: j in s.jobs && s.jobs[j].id == id ==>
                          && id in s.rows
                          && s.rows[id].attempts == s.jobs[j].snapshot < c.maxAttempts
                          && s.rows[id].processedAt.None?
                          && s.rows[id].lockedAt == Some(s.jobs[j].claimedAt)
  {
    LeaseRun(c, start, steps, id);
    var s := Run(c, start, steps);
    forall j | j in s.jobs && s.jobs[j].id == id
      ensures id in s.rows && Leased(c, s.rows[id], s.ledger[id], s.jobs[j])
    {
      assert JobOk(s, j);
    }
  }

  /**
   Attempts never pass the ceiling and equal it exactly when MarkExhausted retired the row; an unprocessed
   row becomes claimable the moment its retry time has come and its lock, if any, is stale.
   */
  lemma NeverStranded(c: Config, start: Time, steps: seq<Step>, id: Uuid, at: Time)
    requires c.maxAttempts >= 1 && TimelyRun(c, start, steps, id)
    requires id in Run(c, start, steps).rows
    ensures var s := Run(c, start, steps);
            var r := s.rows[id];
            && r.attempts <= c.maxAttempts
            && id in s.ledger && (r.attempts == c.maxAttempts <==> s.ledger[id].exhausted)
            && (r.processedAt.None? ==>
                  (Eligible(r, at, c.window, c.maxAttempts) <==>
                   r.nextAttemptAt <= at && (r.lockedAt.Some? ==> r.lockedAt.value + c.window < at)))
  {
    LeaseRun(c, start, steps, id);
  }

  /**
   What one applied mark leads to. A success ends the message. A failure is counted; the last one ends the
   message too, and after any other the backoff alone, with no lock to wait for, delays the next claim.
   */
  lemma MarkOutcome(c: Config, start: Time, steps: seq<Step>, j: nat, clientNow: Time, at: Time)
    requires AwaitsMark(Run(c, start, steps), j) && TimelyRun(c, start, steps, Run(c, start, steps).jobs[j].id)
    ensures var s := Run(c, start, steps);
            var job := s.jobs[j];
            var s' := Apply(c, s, MarkApplied(j, clientNow));
            && job.id in s.rows && job.id in s'.rows && j !in s'.jobs
            && var r, k := s'.rows[job.id], job.snapshot + 1;
            && (job.phase.Sent? ==> r == s.rows[job.id].(processedAt := Some(clientNow)) && r.attempts == job.snapshot)
            && (job.phase.Refused? ==>
                  && r.attempts == k && r.lastError == Some(job.phase.reason) && r.lockedAt.None?
                  && r.processedAt == (if k == c.maxAttempts then Some(s.now) else None)
                  && (k < c.maxAttempts ==>
                        (Eligible(r, at, c.window, c.maxAttempts) <==> s.now + Delay(c.interval, k) <= at)))
  {
    var s := Run(c, start, steps);
    var id := s.jobs[j].id;
    LeaseRun(c, start, steps, id);
    assert JobOk(s, j) && Leased(c, s.rows[id], s.ledger[id], s.jobs[j]);
  }

  /** The delays that separate the first n failures. */
  function TotalDelay(interval: Interval, n: nat): Time {
    if n <= 1 then 0 else TotalDelay(interval, n - 1) + Delay(interval, n - 1)
  }

  /** Below the cap the delays add up to twice the last, less the first two. */
  lemma {:induction false} TotalDelayUncapped(interval: Interval, n: nat)
    requires n >= 1 && interval * Pow2(n - 1) <= 300_000_000_000
    ensures TotalDelay(interval, n) == interval * Pow2(n) - 2 * interval
  {
    assert interval * Pow2(n) == 2 * (interval * Pow2(n - 1));
    if n > 1 {
      assert interval * Pow2(n - 1) == 2 * (interval * Pow2(n - 2));
      TotalDelayUncapped(interval, n - 1);
    }
  }

  /** At the cap each further attempt adds five minutes. */
  lemma TotalDelayCapped(interval: Interval, n: nat)
    requires n >= 1 && interval * Pow2(n) >= 300_000_000_000
    ensures TotalDelay(interval, n + 1) == TotalDelay(interval, n) + 300_000_000_000
  {
  }

  lemma {:induction false} FailuresFarApart(c: Config, r: Row, l: Ledger, n: nat)
    requires FailuresSpaced(c, r, l) && 1 <= n <= |l.failures|
    ensures l.failures[0] + TotalDelay(c.interval, n) <= l.failures[n - 1]
  {
    if n > 1 {
      FailuresFarApart(c, r, l, n - 1);
      assert Allows(c, l.failures, n - 1, l.failures[n - 1]);
      assert RetryAt(c, l.failures, n - 2) <= l.failures[n - 1];
    }
  }

  /** A claim that saw k failures comes at least interval * 2^k, capped, after the k-th. */
  lemma RetrySpacing(c: Config, start: Time, steps: seq<Step>, id: Uuid, n: nat, k: nat)
    requires TimelyRun(c, start, steps, id) && id in Run(c, start, steps).ledger
    requires n < |Run(c, start, steps).ledger[id].claims|
    requires 1 <= k <= Run(c, start, steps).ledger[id].claims[n].attempts
    ensures var l := Run(c, start, steps).ledger[id];
            k <= |l.failures| && l.failures[k - 1] + Delay(c.interval, k) <= l.claims[n].at
  {
    LeaseRun(c, start, steps, id);
    var l := Run(c, start, steps).ledger[id];
    assert Allows(c, l.failures, l.claims[n].attempts, l.claims[n].at);
    assert RetryAt(c, l.failures, k - 1) <= l.claims[n].at;
  }

  /** Retiring a message takes the delays between its maxAttempts failures, counted from its first claim. */
  lemma ExhaustionTime(c: Config, start: Time, steps: seq<Step>, id: Uuid)
    requires TimelyRun(c, start, steps, id)
    requires id in Run(c, start, steps).ledger && Run(c, start, steps).ledger[id].exhausted
    ensures var l := Run(c, start, steps).ledger[id];
            && |l.failures| == c.maxAttempts && |l.claims| >= 1 && c.maxAttempts >= 1
            && l.claims[0].at + TotalDelay(c.interval, c.maxAttempts) <= l.failures[c.maxAttempts - 1]
  {
    LeaseRun(c, start, steps, id);
    var s := Run(c, start, steps);
    hide RowOk, Run, TimelyRun, HoldersLeased, OneHolder, JobOk;
    RowExhausted(c, s.rows[id], s.ledger[id], s.now);
  }

  lemma RowExhausted(c: Config, r: Row, l: Ledger, now: Time)
    requires RowOk(c, r, l, now) && l.exhausted
    ensures c.maxAttempts >= 1 && |l.failures| == c.maxAttempts && |l.claims| >= 1
    ensures l.claims[0].at + TotalDelay(c.interval, c.maxAttempts) <= l.failures[c.maxAttempts - 1]
  {
    FailuresFarApart(c, r, l, c.maxAttempts);
  }

  // A leased message has one holder; a message without a lease has none.
  lemma HolderCount(c: Config, s: State, id: Uuid, published: bool)
    requires LeaseInv(c, s, id) && id in s.rows
    ensures |Holders(s.jobs, id, published)| <= if s.rows[id].processedAt.None? then 1 else 0
  {
    var held := Holders(s.jobs, id, published);
    if held != {} {
      var j :| j in held;
      assert Leased(c, s.rows[id], s.ledger[id], s.jobs[j]);
      assert held == {j};
    }
  }

  /** Publish is called at most maxAttempts times, plus once for every mark that was lost. */
  lemma PublishBound(c: Config, start: Time, steps: seq<Step>, id: Uuid)
    requires c.maxAttempts >= 1 && TimelyRun(c, start, steps, id)
    requires id in Run(c, start, steps).ledger
    ensures var l := Run(c, start, steps).ledger[id];
            l.publishes <= c.maxAttempts + l.lost
  {
    var s := Run(c, start, steps);
    LeaseRun(c, start, steps, id);
    Conservation(c, start, steps);
    HolderCount(c, s, id, true);
    assert Balanced(s, id);
    assert Ceiling(c, s.rows[id], s.ledger[id]);
  }

  /**
   A full pool loses nothing: the rest of the batch keeps its rows unprocessed with their attempts
   unchanged, and each is claimable again exactly when the reclaim window has passed.
   */
  lemma PoolFullLosesNothing(c: Config, start: Time, steps: seq<Step>, owner: nat, j: nat, at: Time)
    requires j in BatchOf(Run(c, start, steps), owner) && Enabled(c, Run(c, start, steps), PoolFull(owner))
    requires TimelyRun(c, start, steps, Run(c, start, steps).jobs[j].id)
    ensures var s := Run(c, start, steps);
            var s' := Apply(c, s, PoolFull(owner));
            var id := s.jobs[j].id;
            && s'.rows == s.rows && id in s'.rows
            && (forall k :: k in s'.jobs ==> s'.jobs[k].id != id)
            && s'.rows[id].processedAt.None? && s'.rows[id].attempts == s.jobs[j].snapshot
            && (at >= s.now ==>
                  (Eligible(s'.rows[id], at, c.window, c.maxAttempts) <==> s.jobs[j].claimedAt + c.window < at))
  {
    LeaseRun(c, start, steps, Run(c, start, steps).jobs[j].id);
    BatchReleased(c, Run(c, start, steps), owner, j, at);
  }

  lemma BatchReleased(c: Config, s: State, owner: nat, j: nat, at: Time)
    requires j in BatchOf(s, owner) && LeaseInv(c, s, s.jobs[j].id)
    ensures var s' := Drop(s, BatchOf(s, owner));
            var id := s.jobs[j].id;
            && s'.rows == s.rows && id in s'.rows
            && (forall k :: k in s'.jobs ==> s'.jobs[k].id != id)
            && s'.rows[id].processedAt.None? && s'.rows[id].attempts == s.jobs[j].snapshot
            && (at >= s.now ==>
                  (Eligible(s'.rows[id], at, c.window, c.maxAttempts) <==> s.jobs[j].claimedAt + c.window < at))
  {
    var id := s.jobs[j].id;
    assert JobOk(s, j) && Leased(c, s.rows[id], s.ledger[id], s.jobs[j]);
  }
}
