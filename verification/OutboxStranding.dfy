/**
 What goes wrong without the timing assumption. Marks address rows by id alone,
 and the retry decision uses the attempts a job saw when it claimed, so two late
 holders can push a row to the ceiling without retiring it. No claim returns
 such a row again.
 */
module OutboxStranding {
  import opened Wrappers
  import opened OutboxTable
  import opened OutboxProtocol
  import opened OutboxSafety

  /** Unprocessed, with every attempt used. */
  ghost predicate Stranded(c: Config, s: State, id: Uuid) {
    id in s.rows && s.rows[id].processedAt.None? && s.rows[id].attempts >= c.maxAttempts
  }

  /** A stranded row nobody holds any more. */
  ghost predicate Lost(c: Config, s: State, id: Uuid) {
    Stranded(c, s, id) && forall j :: j in s.jobs ==> s.jobs[j].id != id
  }

  /**
   The one step that strands an existing row: a MarkFailed, decided on a snapshot that leaves another
   try, applied to a row whose own counter then reaches the ceiling.
   */
  lemma StrandingStepIff(c: Config, s: State, st: Step, id: Uuid)
    requires WellFormed(s) && id in s.rows && !Stranded(c, s, id)
    ensures Stranded(c, Apply(c, s, st), id) <==>
            && st.MarkApplied? && AwaitsMark(s, st.j)
            && s.jobs[st.j].id == id && s.jobs[st.j].phase.Refused?
            && s.jobs[st.j].snapshot + 1 < c.maxAttempts
            && s.rows[id].attempts + 1 == c.maxAttempts
            && s.rows[id].processedAt.None?
  {
    RowStep(c, s, st, id);
  }

  /** A lost row stays lost: it is never claimed, published or marked again. */
  lemma {:induction false} LostForever(c: Config, s: State, more: seq<Step>, id: Uuid)
    requires WellFormed(s) && Lost(c, s, id)
    ensures WellFormed(Exec(c, s, more)) && Lost(c, Exec(c, s, more), id)
    ensures Exec(c, s, more).ledger[id] == s.ledger[id]
  {
    if |more| > 0 {
      var before, st := more[..|more| - 1], more[|more| - 1];
      LostForever(c, s, before, id);
      LostStep(c, Exec(c, s, before), st, id);
      WellFormedStep(c, Exec(c, s, before), st);
    }
  }

  lemma LostDrop(c: Config, s: State, gone: set<nat>, id: Uuid)
    requires id in s.ledger && Lost(c, s, id)
    ensures Lost(c, Drop(s, gone), id)
    ensures Drop(s, gone).ledger[id] == s.ledger[id]
  {
    assert Holders(s.jobs, id, false) == {} && Holders(s.jobs, id, true) == {};
  }

  lemma LostClaim(c: Config, s: State, owner: nat, returned: seq<Uuid>, id: Uuid)
    requires WellFormed(s) && Lost(c, s, id) && Claimable(c, s, returned)
    ensures Lost(c, AfterClaim(s, owner, returned), id)
    ensures AfterClaim(s, owner, returned).ledger[id] == s.ledger[id]
  {
    assert id !in returned && id !in Ids(returned) && id in s.ledger;
    NewJobsAvoid(s, owner, returned, id);
    hide Claimable, WellFormed, Eligible, NewJobs;
  }

  lemma LostStep(c: Config, s: State, st: Step, id: Uuid)
    requires WellFormed(s) && Lost(c, s, id)
    ensures Lost(c, Apply(c, s, st), id)
    ensures Apply(c, s, st).ledger[id] == s.ledger[id]
  {
    hide Eligible, Drop, AfterClaim, NewJobs;
    if Enabled(c, s, st) {
      match st
      case Claim(owner, returned) => LostClaim(c, s, owner, returned, id);
      case ReplyLost(owner) => LostDrop(c, s, BatchOf(s, owner), id);
      case PoolFull(owner) => LostDrop(c, s, BatchOf(s, owner), id);
      case MarkLost(j) => LostDrop(c, s, {j}, id);
      case Crash(owner) => LostDrop(c, s, OwnedBy(s, owner), id);
      case _ =>
    }
  }

  // --- The run --------------------------------------------------------------

  // Workers, queue and batch that can move one message.
  predicate CanWork(c: Config) {
    c.workers >= 1 && c.queueSize >= 1 && c.batchSize >= 1
  }

  /** One message in the table, free jobs numbers ahead. */
  ghost predicate OneRow(s: State, r: Row) {
    s.rows == map[0 := r] && forall j :: j in s.jobs ==> j < s.nextJob
  }

  lemma Snoc(c: Config, s: State, steps: seq<Step>, st: Step)
    ensures Exec(c, s, steps + [st]) == Apply(c, Exec(c, s, steps), st)
  {
    assert (steps + [st])[..|steps + [st]| - 1] == steps;
  }

  lemma ClaimFires(c: Config, s: State, r: Row, owner: nat)
    requires CanWork(c) && OneRow(s, r) && OwnedBy(s, owner) == {}
    requires Eligible(r, s.now, c.window, c.maxAttempts)
    ensures Apply(c, s, Claim(owner, [0])) == AfterClaim(s, owner, [0])
  {
    hide AfterClaim;
    assert BatchOf(s, owner) == {} by {
      assert forall j :: j in BatchOf(s, owner) ==> j in OwnedBy(s, owner);
    }
    assert Claimable(c, s, [0]);
  }

  lemma ClaimOne(s: State, r: Row, owner: nat)
    requires OneRow(s, r)
    ensures var s' := AfterClaim(s, owner, [0]);
            && OneRow(s', r.(lockedAt := Some(s.now)))
            && s'.jobs == s.jobs[s.nextJob := Job(0, r.attempts, s.now, owner, InBatch)]
            && s'.now == s.now && s'.nextJob == s.nextJob + 1
  {
    LockOne(r, s.now);
    NewOne(s, r, owner);
    hide NewJobs, Locked, Ids;
  }

  lemma LockOne(r: Row, now: Time)
    ensures Locked(map[0 := r], Ids([0]), now) == map[0 := r.(lockedAt := Some(now))]
  {
    assert 0 in Ids([0]);
  }

  lemma NewOne(s: State, r: Row, owner: nat)
    requires s.rows == map[0 := r]
    ensures NewJobs(s, owner, [0]) == map[s.nextJob := Job(0, r.attempts, s.now, owner, InBatch)]
  {
    assert NewJobs(s, owner, [0]).Keys == {s.nextJob};
  }

  lemma SubmitOne(c: Config, s: State, j: nat)
    requires CanWork(c) && j in s.jobs && OwnedBy(s, s.jobs[j].owner) == {j} && s.jobs[j].phase.InBatch?
    ensures Apply(c, s, Submit(j)) == WithPhase(s, j, Queued)
  {
    var p := s.jobs[j].owner;
    assert forall k :: k in BatchOf(s, p) ==> k in OwnedBy(s, p);
    assert QueueOf(s, p) == {} by {
      assert forall k :: k in QueueOf(s, p) ==> k in OwnedBy(s, p);
    }
  }

  lemma StartOne(c: Config, s: State, j: nat)
    requires CanWork(c) && j in s.jobs && OwnedBy(s, s.jobs[j].owner) == {j} && s.jobs[j].phase.Queued?
    ensures Apply(c, s, Start(j, 0)) == WithPhase(s, j, Running(0))
  {
    var p := s.jobs[j].owner;
    assert forall k :: k in QueueOf(s, p) ==> k in OwnedBy(s, p);
    assert forall k :: k in s.jobs && s.jobs[k].owner == p ==> k in OwnedBy(s, p);
  }

  function Refusal(j: nat): Step {
    Publish(j, false, false, Some(""))
  }

  function HoldSteps(owner: nat, j: nat): seq<Step> {
    [Claim(owner, [0]), Submit(j), Start(j, 0), Refusal(j)]
  }

  lemma ExecHold(c: Config, s: State, owner: nat, j: nat)
    ensures Exec(c, s, HoldSteps(owner, j)) ==
            Apply(c, Apply(c, Apply(c, Apply(c, s, Claim(owner, [0])), Submit(j)), Start(j, 0)), Refusal(j))
  {
    hide Apply;
    var a, b, d := Claim(owner, [0]), Submit(j), Start(j, 0);
    Snoc(c, s, [], a);
    Snoc(c, s, [a], b);
    Snoc(c, s, [a, b], d);
    Snoc(c, s, [a, b, d], Refusal(j));
    assert [] + [a] == [a] && [a] + [b] == [a, b] && [a, b] + [d] == [a, b, d];
    assert [a, b, d] + [Refusal(j)] == HoldSteps(owner, j);
  }

  // The last three steps of HoldRefused.
  lemma WorkRefused(c: Config, s: State, j: nat)
    requires CanWork(c) && j in s.jobs && OwnedBy(s, s.jobs[j].owner) == {j} && s.jobs[j].phase.InBatch?
    ensures var s' := Apply(c, Apply(c, Apply(c, s, Submit(j)), Start(j, 0)), Refusal(j));
            && s'.jobs == s.jobs[j := s.jobs[j].(phase := Refused(0, ""))]
            && s'.now == s.now && s'.nextJob == s.nextJob && s'.rows == s.rows
  {
    var p := s.jobs[j].owner;
    SubmitOne(c, s, j);
    var s2 := WithPhase(s, j, Queued);
    assert OwnedBy(s2, p) == OwnedBy(s, p);
    StartOne(c, s2, j);
    var s3 := WithPhase(s2, j, Running(0));
    assert Apply(c, s3, Refusal(j)) == AfterPublish(s3, j, false, false, Some(""));
  }

  /** A process claims the message, and its Publish fails; the mark is still to come. */
  lemma HoldRefused(c: Config, s: State, r: Row, owner: nat) returns (s': State)
    requires CanWork(c) && OneRow(s, r) && OwnedBy(s, owner) == {}
    requires Eligible(r, s.now, c.window, c.maxAttempts)
    ensures s' == Exec(c, s, HoldSteps(owner, s.nextJob))
    ensures OneRow(s', r.(lockedAt := Some(s.now)))
    ensures s'.jobs == s.jobs[s.nextJob := Job(0, r.attempts, s.now, owner, Refused(0, ""))]
    ensures s'.now == s.now && s'.nextJob == s.nextJob + 1
  {
    hide Apply, AfterClaim, Exec, Eligible, NewJobs, Locked, HoldSteps;
    var j := s.nextJob;
    s' := Exec(c, s, HoldSteps(owner, j));
    ExecHold(c, s, owner, j);
    ClaimFires(c, s, r, owner);
    ClaimOne(s, r, owner);
    var s1 := AfterClaim(s, owner, [0]);
    assert OwnedBy(s1, owner) == {j} by {
      assert forall k :: k in s.jobs && s.jobs[k].owner == owner ==> k in OwnedBy(s, owner);
    }
    WorkRefused(c, s1, j);
  }

  /** The message waits for its next attempt after k recorded failures; nobody holds it. */
  ghost predicate Ready(c: Config, s: State, k: nat) {
    exists r: Row ::
      && OneRow(s, r) && s.jobs == map[]
      && r.processedAt.None? && r.attempts == k && r.lockedAt.None? && r.nextAttemptAt <= s.now
  }

  lemma FailOnce(c: Config, s: State, k: nat) returns (steps: seq<Step>)
    requires CanWork(c) && Ready(c, s, k) && k + 1 < c.maxAttempts
    ensures Ready(c, Exec(c, s, steps), k + 1)
  {
    var r: Row :| OneRow(s, r) && s.jobs == map[]
                  && r.processedAt.None? && r.attempts == k && r.lockedAt.None? && r.nextAttemptAt <= s.now;
    var hold := HoldSteps(0, s.nextJob);
    var s1 := HoldRefused(c, s, r, 0);
    var mark, wait := MarkApplied(s.nextJob, s.now), Tick(Delay(c.interval, k + 1));
    var s2 := Apply(c, s1, mark);
    var r2 := s2.rows[0];
    assert s2 == AfterMark(c, s1, s.nextJob, s.now);
    assert s2.jobs == map[];
    assert s2.rows == map[0 := r2];
    var s3 := Apply(c, s2, wait);
    assert OneRow(s3, r2);
    Snoc(c, s, hold, mark);
    Snoc(c, s, hold + [mark], wait);
    steps := hold + [mark] + [wait];
  }

  lemma {:induction false} FailTimes(c: Config, s: State, k: nat) returns (steps: seq<Step>)
    requires CanWork(c) && Ready(c, s, 0) && (k > 0 ==> k < c.maxAttempts)
    ensures Ready(c, Exec(c, s, steps), k)
  {
    if k == 0 {
      steps := [];
    } else {
      var before := FailTimes(c, s, k - 1);
      var last := FailOnce(c, Exec(c, s, before), k - 1);
      ExecConcat(c, s, before, last);
      steps := before + last;
    }
  }

  lemma SecondMarkStrands(c: Config, s: State, j: nat, k: nat)
    requires c.maxAttempts >= 2 && j != k && HeldTwice(s, j, k, c.maxAttempts - 2)
    ensures Lost(c, Apply(c, Apply(c, s, MarkApplied(j, s.now)), MarkApplied(k, s.now)), 0)
  {
    var s' := AfterMark(c, s, j, s.now);
    assert Apply(c, s, MarkApplied(j, s.now)) == s';
    assert s'.rows[0].attempts == c.maxAttempts - 1;
    assert Apply(c, s', MarkApplied(k, s.now)) == AfterMark(c, s', k, s.now);
    assert (s'.jobs - {k}).Keys == {};
  }

  /** Two processes claim the message one window apart, and both publishes fail. */
  function LateHolds(c: Config, s: State): seq<Step> {
    var wait := Tick(if c.window + 1 > 0 then c.window + 1 else 0);
    HoldSteps(0, s.nextJob) + [wait] + HoldSteps(1, s.nextJob + 1)
  }

  /** Both then mark it. */
  function LateMarks(c: Config, s: State): seq<Step> {
    var at := Exec(c, s, LateHolds(c, s)).now;
    [MarkApplied(s.nextJob, at), MarkApplied(s.nextJob + 1, at)]
  }

  /** The job's mark is a MarkFailed decided on these attempts of message 0. */
  ghost predicate WillFail(c: Config, s: State, j: nat, attempts: int) {
    && AwaitsMark(s, j) && s.jobs[j].id == 0 && s.jobs[j].snapshot == attempts
    && MarkOf(c, s.jobs[j], s.now).Failed?
  }

  /** Message 0 waits for two marks, both decided on its current attempts. */
  ghost predicate HeldTwice(s: State, j: nat, k: nat, attempts: int) {
    && s.jobs.Keys == {j, k} && 0 in s.rows
    && s.rows[0].processedAt.None? && s.rows[0].attempts == attempts
    && forall i :: i in s.jobs ==> s.jobs[i].id == 0 && s.jobs[i].phase.Refused? && s.jobs[i].snapshot == attempts
  }

  lemma FirstHold(c: Config, s: State, d: nat) returns (s': State, r: Row, job: Job)
    requires CanWork(c) && c.maxAttempts >= 2 && Ready(c, s, c.maxAttempts - 2) && d > c.window
    ensures s' == Apply(c, Exec(c, s, HoldSteps(0, s.nextJob)), Tick(d))
    ensures OneRow(s', r) && Eligible(r, s'.now, c.window, c.maxAttempts) && r.attempts == c.maxAttempts - 2
    ensures s'.jobs == map[s.nextJob := job] && s'.nextJob == s.nextJob + 1
    ensures job == Job(0, r.attempts, job.claimedAt, 0, Refused(0, ""))
  {
    var r0: Row :|
      && OneRow(s, r0) && s.jobs == map[]
      && r0.processedAt.None? && r0.attempts == c.maxAttempts - 2 && r0.lockedAt.None? && r0.nextAttemptAt <= s.now;
    var s1 := HoldRefused(c, s, r0, 0);
    hide Exec, HoldSteps, Ready;
    s' := Apply(c, s1, Tick(d));
    r := r0.(lockedAt := Some(s.now));
    job := Job(0, r.attempts, s.now, 0, Refused(0, ""));
  }

  lemma SecondHold(c: Config, s: State, r: Row, job: Job)
    requires CanWork(c) && s.nextJob > 0 && OneRow(s, r) && Eligible(r, s.now, c.window, c.maxAttempts)
    requires s.jobs == map[s.nextJob - 1 := job] && job == Job(0, r.attempts, job.claimedAt, 0, Refused(0, ""))
    ensures HeldTwice(Exec(c, s, HoldSteps(1, s.nextJob)), s.nextJob - 1, s.nextJob, r.attempts)
  {
    assert OwnedBy(s, 1) == {};
    var s' := HoldRefused(c, s, r, 1);
    hide Exec, HoldSteps;
    assert s'.jobs.Keys == {s.nextJob - 1, s.nextJob};
  }

  lemma LateHoldsHold(c: Config, s: State)
    requires CanWork(c) && c.maxAttempts >= 2 && Ready(c, s, c.maxAttempts - 2)
    ensures HeldTwice(Exec(c, s, LateHolds(c, s)), s.nextJob, s.nextJob + 1, c.maxAttempts - 2)
  {
    hide Ready, Exec, HoldSteps, HeldTwice, Eligible, OneRow;
    var d := if c.window + 1 > 0 then c.window + 1 else 0;
    var s2, r, job := FirstHold(c, s, d);
    SecondHold(c, s2, r, job);
    LateHoldsRun(c, s, d);
  }

  lemma LateHoldsRun(c: Config, s: State, d: nat)
    ensures Exec(c, s, HoldSteps(0, s.nextJob) + [Tick(d)] + HoldSteps(1, s.nextJob + 1)) ==
            Exec(c, Apply(c, Exec(c, s, HoldSteps(0, s.nextJob)), Tick(d)), HoldSteps(1, s.nextJob + 1))
  {
    hide Apply, HoldSteps;
    Snoc(c, s, HoldSteps(0, s.nextJob), Tick(d));
    ExecConcat(c, s, HoldSteps(0, s.nextJob) + [Tick(d)], HoldSteps(1, s.nextJob + 1));
  }

  /**
   Two holders that both saw maxAttempts - 2 take the MarkFailed branch; together the marks leave the row
   unprocessed with every attempt used.
   */
  lemma TwoLateMarks(c: Config, s: State)
    requires CanWork(c) && c.maxAttempts >= 2 && Ready(c, s, c.maxAttempts - 2)
    ensures var held := Exec(c, s, LateHolds(c, s));
            && WillFail(c, held, s.nextJob, c.maxAttempts - 2)
            && WillFail(c, held, s.nextJob + 1, c.maxAttempts - 2)
    ensures Lost(c, Exec(c, s, LateHolds(c, s) + LateMarks(c, s)), 0)
  {
    LateHoldsHold(c, s);
    var held := Exec(c, s, LateHolds(c, s));
    var j, k := s.nextJob, s.nextJob + 1;
    SecondMarkStrands(c, held, j, k);
    hide Apply, Lost, LateHolds;
    var first, second := MarkApplied(j, held.now), MarkApplied(k, held.now);
    Snoc(c, s, LateHolds(c, s), first);
    Snoc(c, s, LateHolds(c, s) + [first], second);
    assert LateHolds(c, s) + [first] + [second] == LateHolds(c, s) + LateMarks(c, s);
  }

  ghost predicate CanStrand(c: Config) {
    exists start: Time, steps: seq<Step>, id: Uuid :: Lost(c, Run(c, start, steps), id)
  }

  const FIRST := Message(0, 0, "CustomerRegistered", "", 0)

  lemma StrandsAtTwo(c: Config)
    requires CanWork(c) && c.maxAttempts >= 2
    ensures CanStrand(c)
  {
    var s := Run(c, 0, [Commit(FIRST)]);
    Snoc(c, Init(0), [], Commit(FIRST));
    assert Run(c, 0, [Commit(FIRST)]) == Run(c, 0, [] + [Commit(FIRST)]);
    assert OneRow(s, Inserted(FIRST, 0));
    assert Ready(c, s, 0);
    var fail := FailTimes(c, s, c.maxAttempts - 2);
    ExecConcat(c, Init(0), [Commit(FIRST)], fail);
    var ready := Exec(c, s, fail);
    TwoLateMarks(c, ready);
    var late := LateHolds(c, ready) + LateMarks(c, ready);
    ExecConcat(c, Init(0), [Commit(FIRST)] + fail, late);
    assert Lost(c, Run(c, 0, [Commit(FIRST)] + fail + late), 0);
  }

  // With a single attempt every recorded failure retires the row.
  lemma {:induction false} NoStrandAtOne(c: Config, start: Time, steps: seq<Step>, id: Uuid)
    requires c.maxAttempts == 1 && id in Run(c, start, steps).rows
    ensures var r := Run(c, start, steps).rows[id]; r.processedAt.None? ==> r.attempts == 0
  {
    if |steps| > 0 {
      var before := steps[..|steps| - 1];
      var s := Run(c, start, before);
      WellFormedRun(c, start, before);
      if id in s.rows {
        NoStrandAtOne(c, start, before, id);
        RowStep(c, s, steps[|steps| - 1], id);
      }
    }
  }

  /** A committed message can be lost for good exactly when maxAttempts is not 1. */
  lemma StrandingReachableIff(c: Config)
    requires CanWork(c)
    ensures CanStrand(c) <==> c.maxAttempts != 1
  {
    if c.maxAttempts == 1 {
      forall start: Time, steps: seq<Step>, id: Uuid
        ensures !Lost(c, Run(c, start, steps), id)
      {
        if id in Run(c, start, steps).rows {
          NoStrandAtOne(c, start, steps, id);
        }
      }
    } else if c.maxAttempts >= 2 {
      StrandsAtTwo(c);
    } else {
      assert Run(c, 0, [Commit(FIRST)]) == Run(c, 0, [] + [Commit(FIRST)]);
      Snoc(c, Init(0), [], Commit(FIRST));
      assert Lost(c, Run(c, 0, [Commit(FIRST)]), 0);
    }
  }
}
