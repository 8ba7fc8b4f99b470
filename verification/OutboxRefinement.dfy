/**
 The methods of the store and of the poller are steps of the protocol: what
 their contracts promise is what the protocol's steps do.
 */
module OutboxRefinement {
  import opened Wrappers
  import opened OutboxTable
  import opened OutboxProtocol
  import opened OutboxSafety
  import opened PostgresOutbox

  /** What ClaimBatch picks, when other transactions hold locks on `contended`. */
  ghost predicate Picks(c: Config, s: State, contended: set<Uuid>, picked: seq<Uuid>) {
    && OldestFirst(s.rows, EligibleIds(s.rows, s.now, c.window, c.maxAttempts) - contended, c.batchSize, Ids(picked))
    && (forall i, k :: 0 <= i < k < |picked| ==> picked[i] != picked[k])
  }

  /** Job j delivers m, claimed just now. */
  ghost predicate ClaimedJobIs(s: State, j: nat, m: OutboxMessage, owner: nat, phase: Phase) {
    j in s.jobs && s.jobs[j] == Job(m.msg.id, m.attempts, s.now, owner, phase)
  }

  lemma {:induction false} DistinctSize(ids: seq<Uuid>)
    requires forall i, k :: 0 <= i < k < |ids| ==> ids[i] != ids[k]
    ensures |Ids(ids)| == |ids|
  {
    if |ids| > 0 {
      var before, last := ids[..|ids| - 1], ids[|ids| - 1];
      DistinctSize(before);
      assert ids == before + [last];
      assert Ids(ids) == Ids(before) + {last};
    } else {
      assert Ids(ids) == {};
    }
  }

  /**
   Whatever ClaimBatch picks, beside other transactions or alone, is a claim of the protocol: it does to the
   table what the statement does, and the jobs it makes carry the messages the poller is handed.
   */
  lemma ClaimBatchIsClaim(c: Config, s: State, owner: nat, contended: set<Uuid>, picked: seq<Uuid>,
                          msgs: seq<OutboxMessage>)
    requires WellFormed(s) && BatchOf(s, owner) == {}
    requires Picks(c, s, contended, picked) && Returns(s.rows, picked, msgs)
    ensures Enabled(c, s, Claim(owner, picked))
    ensures var s' := Apply(c, s, Claim(owner, picked));
            && s' == AfterClaim(s, owner, picked)
            && s'.rows == Locked(s.rows, Ids(picked), s.now)
            && forall i :: 0 <= i < |msgs| ==> ClaimedJobIs(s', s.nextJob + i, msgs[i], owner, InBatch)
  {
    PicksClaimable(c, s, contended, picked);
    ClaimedJobs(s, owner, picked, msgs);
    TableLocked(s, owner, picked);
    hide Picks, AfterClaim, Returns, WellFormed;
    assert Claimable(c, s, picked);
  }

  lemma ClaimedJobs(s: State, owner: nat, picked: seq<Uuid>, msgs: seq<OutboxMessage>)
    requires Returns(s.rows, picked, msgs) && forall id :: id in s.rows ==> s.rows[id].msg.id == id
    ensures forall id :: id in picked ==> id in s.rows
    ensures var s' := AfterClaim(s, owner, picked);
            forall i :: 0 <= i < |msgs| ==> ClaimedJobIs(s', s.nextJob + i, msgs[i], owner, InBatch)
  {
    hide AfterClaim;
    assert forall id :: id in picked ==> id in s.rows;
    forall i | 0 <= i < |msgs|
      ensures ClaimedJobIs(AfterClaim(s, owner, picked), s.nextJob + i, msgs[i], owner, InBatch)
    {
      ClaimedJob(s, owner, picked, i);
      assert msgs[i].msg == s.rows[picked[i]].msg && msgs[i].attempts == s.rows[picked[i]].attempts;
    }
  }

  lemma ClaimedJob(s: State, owner: nat, picked: seq<Uuid>, i: nat)
    requires i < |picked| && forall id :: id in picked ==> id in s.rows
    ensures var s' := AfterClaim(s, owner, picked);
            && s'.now == s.now && s.nextJob + i in s'.jobs
            && s'.jobs[s.nextJob + i] == Job(picked[i], s.rows[picked[i]].attempts, s.now, owner, InBatch)
  {
    assert s.nextJob + i in NewJobs(s, owner, picked);
  }

  lemma TableLocked(s: State, owner: nat, picked: seq<Uuid>)
    requires forall id :: id in picked ==> id in s.rows
    ensures AfterClaim(s, owner, picked).rows == Locked(s.rows, Ids(picked), s.now)
  {
  }

  lemma PicksClaimable(c: Config, s: State, contended: set<Uuid>, picked: seq<Uuid>)
    requires Picks(c, s, contended, picked)
    ensures Claimable(c, s, picked)
  {
    DistinctSize(picked);
    forall id | id in picked
      ensures id in EligibleIds(s.rows, s.now, c.window, c.maxAttempts)
    {
      assert id in Ids(picked);
    }
  }

  /**
   What a commit stored is what a claim hands out, however much happens in between, and still what the row
   holds at any time after the claim.
   */
  lemma StoredIsHandedOut(c: Config, start: Time, before: seq<Step>, msg: Message, between: seq<Step>,
                          picked: seq<Uuid>, msgs: seq<OutboxMessage>, i: nat, later: seq<Step>)
    requires Enabled(c, Run(c, start, before), Commit(msg))
    requires var s := Exec(c, Apply(c, Run(c, start, before), Commit(msg)), between);
             Returns(s.rows, picked, msgs) && i < |picked| && picked[i] == msg.id
    ensures var s := Exec(c, Apply(c, Run(c, start, before), Commit(msg)), between);
            && msgs[i].msg == msg
            && msg.id in Exec(c, s, later).rows && Exec(c, s, later).rows[msg.id].msg == msg
  {
    var s0 := Run(c, start, before);
    WellFormedRun(c, start, before);
    WellFormedStep(c, s0, Commit(msg));
    var s1 := Apply(c, s0, Commit(msg));
    assert s1.rows[msg.id].msg == msg;
    hide Apply, Exec, WellFormed;
    RowsNeverVanish(c, s1, between, msg.id);
    RowsNeverVanish(c, Exec(c, s1, between), later, msg.id);
  }

  /**
   Whatever becomes of the two writes of the producer, its call is a publish step of the protocol, and the
   message is on the topic or the dead-letter topic exactly when the write there was made.
   */
  lemma PublishIsStep(c: Config, s: State, j: nat, produce: Call, write: Call, err: Option<string>)
    requires IsRunning(s, j) && (err.None? <==> produce.Done? || write.Done?)
    ensures var st := Publish(j, !produce.Unsent?, !produce.Done? && !write.Unsent?, err);
            var s' := Apply(c, s, st);
            var id := s.jobs[j].id;
            && Enabled(c, s, st) && s'.rows == s.rows && s'.now == s.now
            && s'.topic == s.topic + (if produce.Unsent? then [] else [id])
            && s'.deadLetters == s.deadLetters + (if produce.Done? || write.Unsent? then {} else {id})
            && s'.jobs.Keys == s.jobs.Keys && s'.jobs[j].id == id && s'.jobs[j].snapshot == s.jobs[j].snapshot
            && (s'.jobs[j].phase.Sent? <==> err.None?)
            && (err.Some? ==> s'.jobs[j].phase.Refused? && s'.jobs[j].phase.reason == err.value)
  {
  }

  /** A crash takes the process's jobs with it, and nothing else. */
  lemma CrashTakesJobs(c: Config, s: State, owner: nat, j: nat)
    ensures var s' := Apply(c, s, Crash(owner));
            && s'.rows == s.rows && s'.now == s.now && s'.topic == s.topic && s'.deadLetters == s.deadLetters
            && (j in s'.jobs <==> j in s.jobs && s.jobs[j].owner != owner)
            && (j in s'.jobs ==> s'.jobs[j] == s.jobs[j])
  {
  }

  /** A claim can commit and its reply be lost: the rows stay locked, the jobs are gone. */
  lemma ReplyCanBeLost(c: Config, s: State, owner: nat)
    requires BatchOf(s, owner) != {}
    ensures var s' := Apply(c, s, Step.ReplyLost(owner));
            s'.rows == s.rows && s'.jobs == s.jobs - BatchOf(s, owner)
  {
    assert Drop(s, BatchOf(s, owner)).jobs == s.jobs - BatchOf(s, owner);
  }

  /** Any worker of the process that is idle can take the head of its queue. */
  lemma IdleWorkerStarts(c: Config, s: State, j: nat, worker: nat)
    requires j in s.jobs && s.jobs[j].phase.Queued? && worker < c.workers
    requires forall k :: k in s.jobs && s.jobs[k].owner == s.jobs[j].owner ==>
                           && !s.jobs[k].phase.OnWorker(worker)
                           && (s.jobs[k].phase.Queued? ==> j <= k)
    ensures Enabled(c, s, Start(j, worker))
    ensures Apply(c, s, Start(j, worker)).jobs == s.jobs[j := s.jobs[j].(phase := Running(worker))]
  {
  }

  /** A mark can be lost at any time; the row then keeps its lock and waits for the reclaim window. */
  lemma MarkCanBeLost(c: Config, s: State, j: nat)
    requires AwaitsMark(s, j)
    ensures Apply(c, s, MarkLost(j)).rows == s.rows && Apply(c, s, MarkLost(j)).jobs == s.jobs - {j}
  {
    assert Drop(s, {j}).jobs == s.jobs - {j};
  }

  /** A delivery that publishes and then marks does to the table what the job's mark does. */
  lemma DeliverIsMark(c: Config, s: State, j: nat, m: OutboxMessage, err: Option<string>, inTopic: bool, inDlq: bool,
                      clientNow: Time)
    requires IsRunning(s, j) && (err.None? ==> inTopic || inDlq)
    requires m.msg.id == s.jobs[j].id && m.attempts == s.jobs[j].snapshot
    ensures var s' := Apply(c, Apply(c, s, Publish(j, inTopic, inDlq, err)), MarkApplied(j, clientNow));
            && var mark := Verdict(m.attempts, err, c.maxAttempts, c.interval, clientNow);
            && s'.rows == MarkTable(s.rows, m.msg.id, mark, s.now)
            && s'.jobs == s.jobs - {j}
  {
    var s1 := AfterPublish(s, j, inTopic, inDlq, err);
    assert Apply(c, s, Publish(j, inTopic, inDlq, err)) == s1;
    assert AwaitsMark(s1, j);
    assert Apply(c, s1, MarkApplied(j, clientNow)) == AfterMark(c, s1, j, clientNow);
    assert s1.jobs - {j} == s.jobs - {j};
  }

  // --- One tick of the poller -----------------------------------------------------

  /** Submit the first k jobs of the batch that starts at job number n. */
  function Submits(n: nat, k: nat): (steps: seq<Step>)
    ensures |steps| == k
  {
    if k == 0 then [] else Submits(n, k - 1) + [Submit(n + k - 1)]
  }

  /** The steps of a poll that submits k of the messages it picked. */
  function PollSteps(s: State, owner: nat, picked: seq<Uuid>, k: nat): seq<Step> {
    [Claim(owner, picked)] + Submits(s.nextJob, k) + if k < |picked| then [PoolFull(owner)] else []
  }

  /** Jobs n to n + k have moved from the batch to the queue. */
  function Moved(s: State, n: nat, k: nat): State {
    s.(jobs := map j | j in s.jobs :: if n <= j < n + k then s.jobs[j].(phase := Queued) else s.jobs[j])
  }

  /** The batch of the process is the m jobs from number n on, and its queue holds q jobs. */
  ghost predicate Split(s: State, owner: nat, n: nat, m: nat, q: nat) {
    BatchOf(s, owner) == Numbers(n, m) && |QueueOf(s, owner)| == q
  }

  lemma MovedSplit(s: State, owner: nat, n: nat, m: nat, q: nat, k: nat)
    requires k <= m && Split(s, owner, n, m, q)
    ensures Split(Moved(s, n, k), owner, n + k, m - k, q + k)
  {
    hide Numbers;
    forall j: nat
      ensures j in BatchOf(Moved(s, n, k), owner) <==> j in Numbers(n + k, m - k)
      ensures j in QueueOf(Moved(s, n, k), owner) <==> j in QueueOf(s, owner) || j in Numbers(n, k)
      ensures !(j in QueueOf(s, owner) && j in Numbers(n, k))
    {
      MovedJob(s, owner, n, m, k, j);
    }
    NumbersSize(n, k);
    hide Moved, QueueOf, BatchOf;
    assert QueueOf(Moved(s, n, k), owner) == QueueOf(s, owner) + Numbers(n, k);
    assert QueueOf(s, owner) !! Numbers(n, k);
    assert BatchOf(Moved(s, n, k), owner) == Numbers(n + k, m - k);
  }

  lemma MovedJob(s: State, owner: nat, n: nat, m: nat, k: nat, j: nat)
    requires k <= m && BatchOf(s, owner) == Numbers(n, m)
    ensures j in BatchOf(Moved(s, n, k), owner) <==> j in Numbers(n + k, m - k)
    ensures j in QueueOf(Moved(s, n, k), owner) <==> j in QueueOf(s, owner) || j in Numbers(n, k)
    ensures !(j in QueueOf(s, owner) && j in Numbers(n, k))
  {
    hide Numbers;
    assert j in BatchOf(s, owner) <==> j in Numbers(n, m);
  }

  lemma {:induction false} NumbersSize(n: nat, k: nat)
    ensures |Numbers(n, k)| == k
  {
    if k > 0 {
      NumbersSize(n, k - 1);
    }
  }

  // The front of the batch is accepted while the queue has room.
  lemma SubmitFires(c: Config, s: State, owner: nat, n: nat, rest: nat, q: nat)
    requires rest > 0 && Split(s, owner, n, rest, q) && q < c.queueSize
    ensures Enabled(c, s, Submit(n)) && n in s.jobs
  {
    assert n in Numbers(n, rest);
    assert n in BatchOf(s, owner);
    assert IsFirst(n, BatchOf(s, owner));
  }

  lemma MoveNone(s: State, n: nat)
    ensures Moved(s, n, 0) == s
  {
    assert Moved(s, n, 0).jobs == s.jobs;
  }

  lemma MoveOne(s: State, n: nat, k: nat)
    requires n + k in Moved(s, n, k).jobs
    ensures WithPhase(Moved(s, n, k), n + k, Queued) == Moved(s, n, k + 1)
  {
    assert WithPhase(Moved(s, n, k), n + k, Queued).jobs == Moved(s, n, k + 1).jobs;
  }

  lemma {:induction false} SubmitsMove(c: Config, s: State, owner: nat, n: nat, m: nat, q: nat, k: nat)
    requires k <= m && Split(s, owner, n, m, q) && q + k <= c.queueSize
    ensures Exec(c, s, Submits(n, k)) == Moved(s, n, k)
  {
    hide Enabled, Moved, Split;
    if k == 0 {
      MoveNone(s, n);
    } else {
      var s1, j := Moved(s, n, k - 1), n + k - 1;
      SubmitsMove(c, s, owner, n, m, q, k - 1);
      MovedSplit(s, owner, n, m, q, k - 1);
      SubmitFires(c, s1, owner, j, m - k + 1, q + k - 1);
      MoveOne(s, n, k - 1);
      assert Submits(n, k)[..k - 1] == Submits(n, k - 1);
      assert Apply(c, s1, Submit(j)) == WithPhase(s1, j, Queued);
    }
  }

  lemma ClaimedBatch(s: State, owner: nat, picked: seq<Uuid>)
    requires WellFormed(s) && BatchOf(s, owner) == {} && forall id :: id in picked ==> id in s.rows
    ensures var s' := AfterClaim(s, owner, picked);
            Split(s', owner, s.nextJob, |picked|, |QueueOf(s, owner)|) && Extended(s, s', |picked|)
  {
    assert forall j :: j in s.jobs ==> JobOk(s, j) && j < s.nextJob;
    ClaimedSets(s, owner, picked);
    ClaimedExtends(s, owner, picked);
    hide *;
    assert Split(AfterClaim(s, owner, picked), owner, s.nextJob, |picked|, |QueueOf(s, owner)|);
  }

  lemma ClaimedExtends(s: State, owner: nat, picked: seq<Uuid>)
    requires forall id :: id in picked ==> id in s.rows
    requires forall j :: j in s.jobs ==> j < s.nextJob
    ensures Extended(s, AfterClaim(s, owner, picked), |picked|)
  {
    hide Locked, Charged;
  }

  lemma ClaimedSets(s: State, owner: nat, picked: seq<Uuid>)
    requires BatchOf(s, owner) == {} && forall id :: id in picked ==> id in s.rows
    requires forall j :: j in s.jobs ==> j < s.nextJob
    ensures var s' := AfterClaim(s, owner, picked);
            Split(s', owner, s.nextJob, |picked|, |QueueOf(s, owner)|)
  {
    hide Locked, Charged;
    var s' := AfterClaim(s, owner, picked);
    forall j: nat
      ensures j in BatchOf(s', owner) <==> j in Numbers(s.nextJob, |picked|)
      ensures j in QueueOf(s', owner) <==> j in QueueOf(s, owner)
    {
      assert j in s.jobs ==> j !in BatchOf(s, owner) && s'.jobs[j] == s.jobs[j];
    }
    assert BatchOf(s', owner) == Numbers(s.nextJob, |picked|) && QueueOf(s', owner) == QueueOf(s, owner);
  }

  /**
   One tick of the poller is a run of the protocol: a claim, a submission for each message the pool took,
   and, when it would not take them all, the end of the batch. Afterwards the claimed rows are locked, the
   taken messages wait in the queue behind what was there, and nothing else has moved.
   */
  lemma PollIsRun(c: Config, s: State, owner: nat, contended: set<Uuid>, picked: seq<Uuid>,
                  msgs: seq<OutboxMessage>, k: nat)
    requires WellFormed(s) && BatchOf(s, owner) == {}
    requires Picks(c, s, contended, picked) && Returns(s.rows, picked, msgs)
    requires k <= |picked| && |QueueOf(s, owner)| + k <= c.queueSize
    requires k < |picked| ==> |QueueOf(s, owner)| + k == c.queueSize
    ensures var s' := Exec(c, s, PollSteps(s, owner, picked, k));
            && s'.rows == Locked(s.rows, Ids(picked), s.now)
            && BatchOf(s', owner) == {}
            && Joined(s, s', owner, msgs[..k], Queued)
  {
    Claimed(c, s, owner, contended, picked, msgs);
    hide *;
    PollTail(c, s, AfterClaim(s, owner, picked), owner, picked, msgs, |QueueOf(s, owner)|, k);
  }

  /** Compared with `before`, the jobs of exactly these messages have been added, in this phase. */
  ghost predicate Joined(before: State, s: State, owner: nat, msgs: seq<OutboxMessage>, phase: Phase) {
    && Extended(before, s, |msgs|)
    && (forall i :: 0 <= i < |msgs| ==> ClaimedJobIs(s, before.nextJob + i, msgs[i], owner, phase))
  }

  ghost predicate Extended(before: State, s: State, m: nat) {
    && s.jobs.Keys == before.jobs.Keys + Numbers(before.nextJob, m)
    && (forall j :: j in before.jobs ==> j in s.jobs && j < before.nextJob && s.jobs[j] == before.jobs[j])
  }

  // The state between the claim and the submissions.
  lemma Claimed(c: Config, s: State, owner: nat, contended: set<Uuid>, picked: seq<Uuid>, msgs: seq<OutboxMessage>)
    requires WellFormed(s) && BatchOf(s, owner) == {}
    requires Picks(c, s, contended, picked) && Returns(s.rows, picked, msgs)
    ensures |msgs| == |picked| && forall id :: id in picked ==> id in s.rows
    ensures var s1 := AfterClaim(s, owner, picked);
            && Apply(c, s, Claim(owner, picked)) == s1
            && s1.rows == Locked(s.rows, Ids(picked), s.now)
            && Split(s1, owner, s.nextJob, |picked|, |QueueOf(s, owner)|)
            && Joined(s, s1, owner, msgs, InBatch)
  {
    PicksClaimable(c, s, contended, picked);
    assert |msgs| == |picked| && forall id :: id in picked ==> id in s.rows;
    ClaimedBatch(s, owner, picked);
    ClaimJoins(s, owner, picked, msgs);
    TableLocked(s, owner, picked);
    hide *;
    ClaimApplies(c, s, owner, picked);
  }

  lemma ClaimApplies(c: Config, s: State, owner: nat, picked: seq<Uuid>)
    requires BatchOf(s, owner) == {} && Claimable(c, s, picked)
    ensures forall id :: id in picked ==> id in s.rows
    ensures Apply(c, s, Claim(owner, picked)) == AfterClaim(s, owner, picked)
  {
    assert forall id :: id in picked ==> id in s.rows;
    hide AfterClaim, BatchOf;
  }

  lemma ClaimJoins(s: State, owner: nat, picked: seq<Uuid>, msgs: seq<OutboxMessage>)
    requires Returns(s.rows, picked, msgs) && forall id :: id in s.rows ==> s.rows[id].msg.id == id
    requires forall id :: id in picked ==> id in s.rows
    requires Extended(s, AfterClaim(s, owner, picked), |picked|)
    ensures Joined(s, AfterClaim(s, owner, picked), owner, msgs, InBatch)
  {
    hide AfterClaim, Extended;
    ClaimedJobs(s, owner, picked, msgs);
  }

  lemma PollTail(c: Config, s: State, s1: State, owner: nat, picked: seq<Uuid>, msgs: seq<OutboxMessage>,
                 q: nat, k: nat)
    requires Apply(c, s, Claim(owner, picked)) == s1
    requires Split(s1, owner, s.nextJob, |picked|, q) && |msgs| == |picked| && k <= |picked|
    requires q + k <= c.queueSize && (k < |picked| ==> q + k == c.queueSize)
    requires Joined(s, s1, owner, msgs, InBatch)
    ensures var s' := Exec(c, s, PollSteps(s, owner, picked, k));
            s'.rows == s1.rows && BatchOf(s', owner) == {} && Joined(s, s', owner, msgs[..k], Queued)
  {
    hide *;
    var n, m := s.nextJob, |picked|;
    var s2 := Moved(s1, n, k);
    SubmitsMove(c, s1, owner, n, m, q, k);
    MovedSplit(s1, owner, n, m, q, k);
    PollExec(c, s, s1, owner, picked, k);
    BatchEnds(c, s2, owner, n + k, m - k, q + k);
    EndJoins(s, s1, Exec(c, s, PollSteps(s, owner, picked, k)), owner, msgs, k);
  }

  /** What is left of s when the batch from number n has ended. */
  ghost predicate Ended(s: State, s': State, n: nat, rest: nat) {
    && s'.rows == s.rows && s'.now == s.now
    && s'.jobs.Keys == s.jobs.Keys - Numbers(n, rest)
    && forall j :: j in s'.jobs ==> s'.jobs[j] == s.jobs[j]
  }

  lemma EndJoins(before: State, s: State, s': State, owner: nat, msgs: seq<OutboxMessage>, k: nat)
    requires k <= |msgs| && Joined(before, s, owner, msgs, InBatch)
    requires Ended(Moved(s, before.nextJob, k), s', before.nextJob + k, |msgs| - k)
    ensures s'.rows == s.rows && Joined(before, s', owner, msgs[..k], Queued)
  {
    hide Numbers;
    assert s'.jobs.Keys == before.jobs.Keys + Numbers(before.nextJob, k);
  }

  lemma BatchEnds(c: Config, s: State, owner: nat, n: nat, rest: nat, q: nat)
    requires Split(s, owner, n, rest, q) && (rest > 0 ==> q >= c.queueSize)
    ensures var s' := if rest > 0 then Apply(c, s, PoolFull(owner)) else s;
            BatchOf(s', owner) == {} && Ended(s, s', n, rest)
  {
    if rest > 0 {
      assert n in BatchOf(s, owner);
      assert Apply(c, s, PoolFull(owner)) == Drop(s, BatchOf(s, owner));
      DropEnds(s, owner);
    }
  }

  lemma DropEnds(s: State, owner: nat)
    ensures var s' := Drop(s, BatchOf(s, owner));
            && BatchOf(s', owner) == {}
            && s'.rows == s.rows && s'.now == s.now
            && s'.jobs.Keys == s.jobs.Keys - BatchOf(s, owner)
            && forall j :: j in s'.jobs ==> s'.jobs[j] == s.jobs[j]
  {
  }

  lemma PollExec(c: Config, s: State, s1: State, owner: nat, picked: seq<Uuid>, k: nat)
    requires Apply(c, s, Claim(owner, picked)) == s1
    ensures var s2 := Exec(c, s1, Submits(s.nextJob, k));
            Exec(c, s, PollSteps(s, owner, picked, k)) ==
            if k < |picked| then Apply(c, s2, PoolFull(owner)) else s2
  {
    hide Apply;
    var claim, submits := [Claim(owner, picked)], Submits(s.nextJob, k);
    assert claim[..0] == [];
    assert Exec(c, s, claim) == s1;
    ExecConcat(c, s, claim, submits);
    if k < |picked| {
      var all := claim + submits + [PoolFull(owner)];
      assert all[..|all| - 1] == claim + submits;
    } else {
      assert claim + submits + [] == claim + submits;
    }
  }
}
