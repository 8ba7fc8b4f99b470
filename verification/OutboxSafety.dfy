/**
 What holds in every run of the outbox, late and duplicate holders included:
 no message is silently discarded, a processed row stays processed, and every
 claim and every publish is accounted for.
 */
module OutboxSafety {
  import opened Wrappers
  import opened OutboxTable
  import opened OutboxProtocol

  // --- Bookkeeping facts every step keeps -------------------------------

  ghost predicate JobOk(s: State, j: nat)
    requires j in s.jobs
  {
    var job := s.jobs[j];
    && j < s.nextJob
    && job.id in s.rows
    && job.claimedAt <= s.now
    && job.snapshot <= s.rows[job.id].attempts
    && (job.phase.Sent? ==> Delivered(s, job.id))
  }

  ghost predicate WellFormed(s: State) {
    && s.ledger.Keys == s.rows.Keys
    && (forall id :: id in s.rows ==> s.rows[id].msg.id == id)
    && (forall j :: j in s.jobs ==> JobOk(s, j))
    && Ids(s.topic) <= s.rows.Keys
    && s.deadLetters <= s.rows.Keys
  }

  /** A Publish of `id` put it on the topic or the dead-letter topic. */
  ghost predicate Delivered(s: State, id: Uuid) {
    id in s.topic || id in s.deadLetters
  }

  lemma WellFormedDrop(s: State, gone: set<nat>)
    requires WellFormed(s)
    ensures WellFormed(Drop(s, gone))
  {
    var s' := Drop(s, gone);
    forall j | j in s'.jobs
      ensures JobOk(s', j)
    {
      assert JobOk(s, j);
    }
  }

  lemma WellFormedClaim(s: State, owner: nat, returned: seq<Uuid>)
    requires WellFormed(s)
    requires forall id :: id in returned ==> id in s.rows
    ensures WellFormed(AfterClaim(s, owner, returned))
  {
    var s' := AfterClaim(s, owner, returned);
    assert s'.rows.Keys == s.rows.Keys;
    assert s'.ledger.Keys == s.ledger.Keys;
    forall j | j in s'.jobs
      ensures JobOk(s', j)
    {
      if j in s.jobs {
        assert JobOk(s, j);
      }
      if j in NewJobs(s, owner, returned) {
        assert returned[j - s.nextJob] in returned;
      }
    }
  }

  lemma NewJobsAvoid(s: State, owner: nat, returned: seq<Uuid>, id: Uuid)
    requires (forall x :: x in returned ==> x in s.rows) && id !in returned
    ensures var jobs := NewJobs(s, owner, returned); forall j :: j in jobs ==> jobs[j].id != id
  {
    var jobs := NewJobs(s, owner, returned);
    assert forall j :: j in jobs ==> jobs[j].id == returned[j - s.nextJob] && jobs[j].id in returned;
  }

  lemma WellFormedPublish(s: State, j: nat, inTopic: bool, inDlq: bool, err: Option<string>)
    requires WellFormed(s) && IsRunning(s, j) && (err.None? ==> inTopic || inDlq)
    ensures WellFormed(AfterPublish(s, j, inTopic, inDlq, err))
  {
    var s' := AfterPublish(s, j, inTopic, inDlq, err);
    assert JobOk(s, j);
    forall k | k in s'.jobs
      ensures JobOk(s', k)
    {
      assert JobOk(s, k);
    }
    forall id | id in Ids(s'.topic)
      ensures id in s'.rows
    {
      if id in s.topic {
        assert id in Ids(s.topic);
      }
    }
  }

  lemma WellFormedMark(c: Config, s: State, j: nat, clientNow: Time)
    requires WellFormed(s) && AwaitsMark(s, j)
    ensures WellFormed(AfterMark(c, s, j, clientNow))
  {
    var s' := AfterMark(c, s, j, clientNow);
    assert JobOk(s, j);
    forall k | k in s'.jobs
      ensures JobOk(s', k)
    {
      assert JobOk(s, k);
    }
  }

  lemma WellFormedPhase(s: State, j: nat, phase: Phase)
    requires WellFormed(s) && j in s.jobs && !phase.Sent?
    ensures WellFormed(WithPhase(s, j, phase))
  {
    var s' := WithPhase(s, j, phase);
    forall k | k in s'.jobs
      ensures JobOk(s', k)
    {
      assert JobOk(s, k);
    }
  }

  lemma WellFormedCommit(s: State, msg: Message)
    requires WellFormed(s) && msg.id !in s.rows
    ensures WellFormed(AfterCommit(s, msg))
  {
    var s' := AfterCommit(s, msg);
    forall j | j in s'.jobs
      ensures JobOk(s', j)
    {
      assert JobOk(s, j);
    }
  }

  lemma WellFormedTick(s: State, d: nat)
    requires WellFormed(s)
    ensures WellFormed(s.(now := s.now + d))
  {
    var s' := s.(now := s.now + d);
    forall j | j in s'.jobs
      ensures JobOk(s', j)
    {
      assert JobOk(s, j);
    }
  }

  lemma WellFormedStep(c: Config, s: State, st: Step)
    requires WellFormed(s)
    ensures WellFormed(Apply(c, s, st))
  {
    hide WellFormed;
    if Enabled(c, s, st) {
      match st
      case Commit(msg) => WellFormedCommit(s, msg);
      case Claim(owner, returned) => WellFormedClaim(s, owner, returned);
      case ReplyLost(owner) => WellFormedDrop(s, BatchOf(s, owner));
      case Submit(j) => WellFormedPhase(s, j, Queued);
      case PoolFull(owner) => WellFormedDrop(s, BatchOf(s, owner));
      case Start(j, worker) => WellFormedPhase(s, j, Running(worker));
      case Publish(j, inTopic, inDlq, err) => WellFormedPublish(s, j, inTopic, inDlq, err);
      case MarkApplied(j, clientNow) => WellFormedMark(c, s, j, clientNow);
      case MarkLost(j) => WellFormedDrop(s, {j});
      case Crash(owner) => WellFormedDrop(s, OwnedBy(s, owner));
      case Tick(d) => WellFormedTick(s, d);
    }
  }

  lemma {:induction false} WellFormedRun(c: Config, start: Time, steps: seq<Step>)
    ensures WellFormed(Run(c, start, steps))
  {
    if |steps| > 0 {
      WellFormedRun(c, start, steps[..|steps| - 1]);
      WellFormedStep(c, Run(c, start, steps[..|steps| - 1]), steps[|steps| - 1]);
    }
  }

  /** The only two ways a step touches an existing row: a claim locks it, or a mark is applied to it. */
  lemma RowStep(c: Config, s: State, st: Step, id: Uuid)
    requires WellFormed(s) && id in s.rows
    ensures id in Apply(c, s, st).rows
    ensures var r := s.rows[id];
            var r' := Apply(c, s, st).rows[id];
            || r' == r
            || (st.Claim? && Enabled(c, s, st) && id in st.returned && r' == r.(lockedAt := Some(s.now)))
            || (st.MarkApplied? && Enabled(c, s, st) && s.jobs[st.j].id == id
                && r' == Marked(r, MarkOf(c, s.jobs[st.j], st.clientNow), s.now))
  {
  }

  /** Rows come from commits, and keep their message. */
  lemma RowOrigin(c: Config, s: State, st: Step, id: Uuid)
    requires WellFormed(s) && id in Apply(c, s, st).rows
    ensures var msg := Apply(c, s, st).rows[id].msg;
            (id in s.rows && msg == s.rows[id].msg) || (st == Commit(msg) && msg.id == id)
  {
    if id in s.rows {
      RowStep(c, s, st, id);
    }
  }

  // A committed message can be claimed from that instant on, provided any attempt is allowed at all.
  lemma CommittedClaimable(c: Config, s: State, msg: Message, at: Time)
    requires Enabled(c, s, Commit(msg))
    ensures var s' := Apply(c, s, Commit(msg));
            && msg.id in s'.rows
            && (Eligible(s'.rows[msg.id], at, c.window, c.maxAttempts) <==> c.maxAttempts >= 1 && s.now <= at)
  {
  }

  // --- No message is silently discarded ----------------------------------

  /** Unprocessed, or delivered, or given up after enough recorded failures. */
  ghost predicate Accounted(c: Config, s: State, id: Uuid)
    requires id in s.rows
  {
    || s.rows[id].processedAt.None?
    || Delivered(s, id)
    || (s.rows[id].attempts >= c.maxAttempts && s.rows[id].lastError.Some?)
  }

  ghost predicate AllAccounted(c: Config, s: State) {
    forall id :: id in s.rows ==> Accounted(c, s, id)
  }

  lemma DeliveredStep(c: Config, s: State, st: Step, id: Uuid)
    requires Delivered(s, id)
    ensures Delivered(Apply(c, s, st), id)
  {
  }

  lemma AccountedStep(c: Config, s: State, st: Step)
    requires WellFormed(s) && AllAccounted(c, s)
    ensures AllAccounted(c, Apply(c, s, st))
  {
    var s' := Apply(c, s, st);
    forall id | id in s'.rows
      ensures Accounted(c, s', id)
    {
      if id in s.rows {
        RowStep(c, s, st, id);
        if Delivered(s, id) {
          DeliveredStep(c, s, st, id);
        } else if s'.rows[id] != s.rows[id] && st.MarkApplied? {
          assert JobOk(s, st.j);
        }
      }
    }
  }

  /** In every run, stale holders included, each committed message is unprocessed, delivered, or out of attempts. */
  lemma {:induction false} NoSilentDiscard(c: Config, start: Time, steps: seq<Step>)
    ensures AllAccounted(c, Run(c, start, steps))
  {
    if |steps| > 0 {
      var before := steps[..|steps| - 1];
      NoSilentDiscard(c, start, before);
      WellFormedRun(c, start, before);
      AccountedStep(c, Run(c, start, before), steps[|steps| - 1]);
    }
  }

  /** The same for an unprocessed row: it exists, so nothing but `processed_at` hides it from later claims. */
  lemma {:induction false} RowsNeverVanish(c: Config, s: State, more: seq<Step>, id: Uuid)
    requires WellFormed(s) && id in s.rows
    ensures WellFormed(Exec(c, s, more))
    ensures id in Exec(c, s, more).rows
    ensures Exec(c, s, more).rows[id].msg == s.rows[id].msg
    ensures Exec(c, s, more).rows[id].attempts >= s.rows[id].attempts
  {
    if |more| > 0 {
      var before := more[..|more| - 1];
      RowsNeverVanish(c, s, before, id);
      RowStep(c, Exec(c, s, before), more[|more| - 1], id);
      WellFormedStep(c, Exec(c, s, before), more[|more| - 1]);
    }
  }

  /** Once processed_at is set no later step, stale marks included, makes the row claimable or claims it. */
  lemma {:induction false} ProcessedForever(c: Config, s: State, more: seq<Step>, id: Uuid)
    requires WellFormed(s) && id in s.rows && s.rows[id].processedAt.Some?
    ensures WellFormed(Exec(c, s, more)) && id in Exec(c, s, more).rows
    ensures Exec(c, s, more).rows[id].processedAt.Some?
    ensures Exec(c, s, more).ledger[id].claims == s.ledger[id].claims
    ensures forall t: Time, w: Time, n: int :: !Eligible(Exec(c, s, more).rows[id], t, w, n)
  {
    if |more| > 0 {
      var before, st := more[..|more| - 1], more[|more| - 1];
      var s1 := Exec(c, s, before);
      ProcessedForever(c, s, before, id);
      RowStep(c, s1, st, id);
      WellFormedStep(c, s1, st);
      ClaimsStep(c, s1, st, id);
    }
  }

  /** A claim is the only step that adds to a message's claims, and it adds one. */
  lemma ClaimsStep(c: Config, s: State, st: Step, id: Uuid)
    requires WellFormed(s) && id in s.rows
    ensures id in Apply(c, s, st).ledger
    ensures Apply(c, s, st).ledger[id].claims ==
            if st.Claim? && Enabled(c, s, st) && id in st.returned
            then s.ledger[id].claims + [Claimed(s.now, s.rows[id].attempts)]
            else s.ledger[id].claims
  {
  }

  /** How the ledger of a message records a step: publish calls, and marks when they are applied. */
  lemma LedgerStep(c: Config, s: State, st: Step, id: Uuid)
    requires id in s.rows && id in s.ledger
    ensures id in Apply(c, s, st).ledger
    ensures var l, l' := s.ledger[id], Apply(c, s, st).ledger[id];
            var marks := st.MarkApplied? && AwaitsMark(s, st.j) && s.jobs[st.j].id == id;
            var failed := marks && s.jobs[st.j].phase.Refused?;
            var publishes := st.Publish? && Enabled(c, s, st) && s.jobs[st.j].id == id;
            && l'.publishes == l.publishes + (if publishes then 1 else 0)
            && l'.processedMarks == l.processedMarks + (if marks && s.jobs[st.j].phase.Sent? then 1 else 0)
            && l'.failures == l.failures + (if failed then [s.now] else [])
            && (l'.exhausted <==> l.exhausted || (failed && s.jobs[st.j].snapshot + 1 >= c.maxAttempts))
  {
  }

  // --- Every claim and every publish is accounted for ---------------------

  ghost predicate Balanced(s: State, id: Uuid)
    requires id in s.rows && id in s.ledger
  {
    var l := s.ledger[id];
    && |l.claims| == |Holders(s.jobs, id, false)| + l.dropped + l.publishes
    && l.publishes == |Holders(s.jobs, id, true)| + l.lost + s.rows[id].attempts + l.processedMarks
    && |l.failures| == s.rows[id].attempts
  }

  ghost predicate AllBalanced(s: State) {
    s.ledger.Keys == s.rows.Keys && forall id :: id in s.rows ==> Balanced(s, id)
  }

  lemma BalancedDrop(s: State, gone: set<nat>)
    requires AllBalanced(s)
    ensures AllBalanced(Drop(s, gone))
  {
    var s' := Drop(s, gone);
    forall id | id in s'.rows
      ensures Balanced(s', id)
    {
      assert Balanced(s, id);
      DropHolders(s, gone, id, false);
      DropHolders(s, gone, id, true);
    }
  }

  lemma DropHolders(s: State, gone: set<nat>, id: Uuid, published: bool)
    ensures |Holders(s.jobs, id, published)| ==
            |Holders(Drop(s, gone).jobs, id, published)| + |Holders(s.jobs, id, published) * gone|
  {
    var before := Holders(s.jobs, id, published);
    assert Holders(Drop(s, gone).jobs, id, published) == before - gone;
    assert before == (before - gone) + before * gone;
  }

  lemma BalancedClaim(s: State, owner: nat, returned: seq<Uuid>)
    requires WellFormed(s) && AllBalanced(s)
    requires forall i, k :: 0 <= i < k < |returned| ==> returned[i] != returned[k]
    requires forall id :: id in returned ==> id in s.rows
    ensures AllBalanced(AfterClaim(s, owner, returned))
  {
    var s' := AfterClaim(s, owner, returned);
    assert s'.rows.Keys == s.rows.Keys;
    assert s'.ledger.Keys == s.ledger.Keys;
    forall id | id in s'.rows
      ensures Balanced(s', id)
    {
      assert Balanced(s, id);
      ClaimHolders(s, owner, returned, id);
    }
  }

  lemma ClaimHolders(s: State, owner: nat, returned: seq<Uuid>, id: Uuid)
    requires WellFormed(s)
    requires forall i, k :: 0 <= i < k < |returned| ==> returned[i] != returned[k]
    requires forall x :: x in returned ==> x in s.rows
    ensures var jobs' := s.jobs + NewJobs(s, owner, returned);
            && |Holders(jobs', id, true)| == |Holders(s.jobs, id, true)|
            && |Holders(jobs', id, false)| == |Holders(s.jobs, id, false)| + if id in returned then 1 else 0
  {
    var added := NewJobs(s, owner, returned);
    assert s.jobs.Keys !! added.Keys by {
      assert forall j :: j in s.jobs ==> JobOk(s, j);
    }
    HoldersSum(s.jobs, added, id, true);
    HoldersSum(s.jobs, added, id, false);
    NewHolders(s, owner, returned, id);
  }

  lemma NewHolders(s: State, owner: nat, returned: seq<Uuid>, id: Uuid)
    requires forall i, k :: 0 <= i < k < |returned| ==> returned[i] != returned[k]
    requires forall x :: x in returned ==> x in s.rows
    ensures Holders(NewJobs(s, owner, returned), id, true) == {}
    ensures |Holders(NewJobs(s, owner, returned), id, false)| == if id in returned then 1 else 0
  {
    var jobs := NewJobs(s, owner, returned);
    assert forall j :: j in jobs ==> !jobs[j].phase.Published() && jobs[j].id == returned[j - s.nextJob];
    if id in returned {
      var i :| 0 <= i < |returned| && returned[i] == id;
      SoleHolder(jobs, s.nextJob + i, id);
    } else {
      assert Holders(jobs, id, false) == {};
    }
  }

  lemma SoleHolder(jobs: map<nat, Job>, j: nat, id: Uuid)
    requires j in jobs && jobs[j].id == id && !jobs[j].phase.Published()
    requires forall k :: k in jobs && jobs[k].id == id ==> k == j
    ensures |Holders(jobs, id, false)| == 1
  {
    assert Holders(jobs, id, false) == {j};
  }

  lemma HoldersSum(a: map<nat, Job>, b: map<nat, Job>, id: Uuid, published: bool)
    requires a.Keys !! b.Keys
    ensures Holders(a + b, id, published) == Holders(a, id, published) + Holders(b, id, published)
    ensures |Holders(a + b, id, published)| == |Holders(a, id, published)| + |Holders(b, id, published)|
  {
    assert Holders(a + b, id, published) == Holders(a, id, published) + Holders(b, id, published);
    assert Holders(a, id, published) !! Holders(b, id, published);
  }

  lemma PhaseHolders(jobs: map<nat, Job>, j: nat, phase: Phase, id: Uuid, published: bool)
    requires j in jobs
    ensures var h := Holders(jobs[j := jobs[j].(phase := phase)], id, published);
            h == Holders(jobs, id, published) - {j}
            + if jobs[j].id == id && phase.Published() == published then {j} else {}
  {
  }

  lemma BalancedPhase(s: State, j: nat, phase: Phase)
    requires AllBalanced(s) && j in s.jobs && !s.jobs[j].phase.Published() && !phase.Published()
    ensures AllBalanced(WithPhase(s, j, phase))
  {
    var s' := WithPhase(s, j, phase);
    forall id | id in s'.rows
      ensures Balanced(s', id)
    {
      assert Balanced(s, id);
      assert Holders(s'.jobs, id, false) == Holders(s.jobs, id, false);
      assert Holders(s'.jobs, id, true) == Holders(s.jobs, id, true);
    }
  }

  lemma BalancedPublish(s: State, j: nat, inTopic: bool, inDlq: bool, err: Option<string>)
    requires WellFormed(s) && AllBalanced(s) && IsRunning(s, j)
    ensures AllBalanced(AfterPublish(s, j, inTopic, inDlq, err))
  {
    var s' := AfterPublish(s, j, inTopic, inDlq, err);
    assert JobOk(s, j);
    forall id | id in s'.rows
      ensures Balanced(s', id)
    {
      assert Balanced(s, id);
      PublishHolders(s.jobs, j, Outcome(s.jobs[j].phase.worker, err), id);
    }
  }

  lemma PublishHolders(jobs: map<nat, Job>, j: nat, phase: Phase, id: Uuid)
    requires j in jobs && !jobs[j].phase.Published() && phase.Published()
    ensures var jobs' := jobs[j := jobs[j].(phase := phase)];
            var moved := if jobs[j].id == id then 1 else 0;
            && |Holders(jobs', id, false)| == |Holders(jobs, id, false)| - moved
            && |Holders(jobs', id, true)| == |Holders(jobs, id, true)| + moved
  {
    PhaseHolders(jobs, j, phase, id, false);
    PhaseHolders(jobs, j, phase, id, true);
    assert jobs[j].id == id ==> j in Holders(jobs, id, false) && j !in Holders(jobs, id, true);
  }

  lemma BalancedMark(c: Config, s: State, j: nat, clientNow: Time)
    requires WellFormed(s) && AllBalanced(s) && AwaitsMark(s, j)
    ensures AllBalanced(AfterMark(c, s, j, clientNow))
  {
    var s' := AfterMark(c, s, j, clientNow);
    assert JobOk(s, j);
    forall id | id in s'.rows
      ensures Balanced(s', id)
    {
      assert Balanced(s, id);
      MinusHolders(s.jobs, j, id, false);
      MinusHolders(s.jobs, j, id, true);
    }
  }

  lemma MinusHolders(jobs: map<nat, Job>, j: nat, id: Uuid, published: bool)
    requires j in jobs
    ensures |Holders(jobs - {j}, id, published)| ==
            |Holders(jobs, id, published)| - if jobs[j].id == id && jobs[j].phase.Published() == published then 1 else 0
  {
    assert Holders(jobs - {j}, id, published) == Holders(jobs, id, published) - {j};
  }

  lemma BalancedCommit(s: State, msg: Message)
    requires WellFormed(s) && AllBalanced(s) && msg.id !in s.rows
    ensures AllBalanced(AfterCommit(s, msg))
  {
    var s' := AfterCommit(s, msg);
    forall id | id in s'.rows
      ensures Balanced(s', id)
    {
      if id in s.rows {
        assert Balanced(s, id);
      } else {
        assert forall j :: j in s.jobs ==> JobOk(s, j);
        assert Holders(s'.jobs, id, false) == {} && Holders(s'.jobs, id, true) == {};
      }
    }
  }

  lemma BalancedTick(s: State, d: nat)
    requires AllBalanced(s)
    ensures AllBalanced(s.(now := s.now + d))
  {
    forall id | id in s.rows
      ensures Balanced(s.(now := s.now + d), id)
    {
      assert Balanced(s, id);
    }
  }

  lemma BalancedStep(c: Config, s: State, st: Step)
    requires WellFormed(s) && AllBalanced(s)
    ensures AllBalanced(Apply(c, s, st))
  {
    hide WellFormed, AllBalanced;
    if Enabled(c, s, st) {
      match st
      case Commit(msg) => BalancedCommit(s, msg);
      case Claim(owner, returned) => BalancedClaim(s, owner, returned);
      case ReplyLost(owner) => BalancedDrop(s, BatchOf(s, owner));
      case Submit(j) => BalancedPhase(s, j, Queued);
      case PoolFull(owner) => BalancedDrop(s, BatchOf(s, owner));
      case Start(j, worker) => BalancedPhase(s, j, Running(worker));
      case Publish(j, inTopic, inDlq, err) => BalancedPublish(s, j, inTopic, inDlq, err);
      case MarkApplied(j, clientNow) => BalancedMark(c, s, j, clientNow);
      case MarkLost(j) => BalancedDrop(s, {j});
      case Crash(owner) => BalancedDrop(s, OwnedBy(s, owner));
      case Tick(d) => BalancedTick(s, d);
    }
  }

  /**
   In every run: claims made = jobs that have not published + claims dropped + publishes, and
   publishes = jobs awaiting their mark + lost marks + attempts recorded + MarkProcessed applied.
   */
  lemma {:induction false} Conservation(c: Config, start: Time, steps: seq<Step>)
    ensures AllBalanced(Run(c, start, steps))
  {
    if |steps| > 0 {
      var before := steps[..|steps| - 1];
      Conservation(c, start, before);
      WellFormedRun(c, start, before);
      BalancedStep(c, Run(c, start, before), steps[|steps| - 1]);
    }
  }

  /**
   A message no claim has returned yet can be claimed, in every state of every run, provided any attempt is
   allowed at all: other messages, crashes and late marks cannot hide it.
   */
  lemma {:induction false} UnclaimedIsClaimable(c: Config, start: Time, steps: seq<Step>, id: Uuid, at: Time)
    requires id in Run(c, start, steps).rows && id in Run(c, start, steps).ledger
    requires Run(c, start, steps).ledger[id].claims == [] && at >= Run(c, start, steps).now
    ensures Eligible(Run(c, start, steps).rows[id], at, c.window, c.maxAttempts) <==> c.maxAttempts >= 1
  {
    if |steps| > 0 {
      var before, st := steps[..|steps| - 1], steps[|steps| - 1];
      var s := Run(c, start, before);
      WellFormedRun(c, start, before);
      TimePasses(c, s, st);
      if id in s.rows {
        ClaimsStep(c, s, st, id);
        UnclaimedIsClaimable(c, start, before, id, at);
        Conservation(c, start, before);
        UnclaimedUnmarked(s, id);
        hide WellFormed, AllBalanced;
        RowStep(c, s, st, id);
      } else {
        hide WellFormed;
        NewRow(c, s, st, id);
        CommittedClaimable(c, s, st.msg, at);
      }
    }
  }

  lemma TimePasses(c: Config, s: State, st: Step)
    ensures s.now <= Apply(c, s, st).now
  {
  }

  lemma NewRow(c: Config, s: State, st: Step, id: Uuid)
    requires WellFormed(s) && id !in s.rows && id in Apply(c, s, st).rows
    ensures st.Commit? && st.msg.id == id && Enabled(c, s, st)
  {
    RowOrigin(c, s, st, id);
  }

  // By the balance of claims, nobody holds a message that was never claimed.
  lemma UnclaimedUnmarked(s: State, id: Uuid)
    requires AllBalanced(s) && id in s.rows && s.ledger[id].claims == []
    ensures forall j :: AwaitsMark(s, j) ==> s.jobs[j].id != id
  {
    assert Balanced(s, id);
    forall j | AwaitsMark(s, j)
      ensures s.jobs[j].id != id
    {
      assert s.jobs[j].id == id ==> j in Holders(s.jobs, id, true);
    }
  }

  // --- A claim excludes others until a mark or the end of its window -------

  /** No step of `more` applies a mark to `id`. */
  predicate NoMarkOn(c: Config, s: State, more: seq<Step>, id: Uuid) {
    |more| == 0 ||
    var before, st := more[..|more| - 1], more[|more| - 1];
    var s1 := Exec(c, s, before);
    NoMarkOn(c, s, before, id) && !(st.MarkApplied? && Enabled(c, s1, st) && s1.jobs[st.j].id == id)
  }

  lemma {:induction false} LockKept(c: Config, s: State, more: seq<Step>, id: Uuid, at: Time)
    requires WellFormed(s) && id in s.rows && NoMarkOn(c, s, more, id)
    requires s.rows[id].lockedAt.Some? && at <= s.rows[id].lockedAt.value && at <= s.now
    ensures var s' := Exec(c, s, more);
            WellFormed(s') && s'.now >= at && id in s'.rows
            && s'.rows[id].lockedAt.Some? && s'.rows[id].lockedAt.value >= at
  {
    if |more| > 0 {
      var before, st := more[..|more| - 1], more[|more| - 1];
      LockKept(c, s, before, id, at);
      RowStep(c, Exec(c, s, before), st, id);
      WellFormedStep(c, Exec(c, s, before), st);
    }
  }

  /** Two claims inside one reclaim window with no mark on the row between them are disjoint. */
  lemma ClaimsDisjoint(c: Config, s: State, first: Step, more: seq<Step>, second: Step)
    requires WellFormed(s) && first.Claim? && Enabled(c, s, first) && second.Claim?
    requires Enabled(c, Exec(c, Apply(c, s, first), more), second)
    requires Exec(c, Apply(c, s, first), more).now <= s.now + c.window
    ensures forall id :: id in first.returned && NoMarkOn(c, Apply(c, s, first), more, id) ==> id !in second.returned
  {
    var s1 := Apply(c, s, first);
    WellFormedStep(c, s, first);
    forall id | id in first.returned && NoMarkOn(c, s1, more, id)
      ensures id !in second.returned
    {
      assert id in Ids(first.returned);
      LockKept(c, s1, more, id, s.now);
    }
  }
}
