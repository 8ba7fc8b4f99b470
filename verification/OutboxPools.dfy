/**
 The processes of the outbox protocol run on worker pools: whatever a process
 does with its jobs between claim and mark is a run of WorkerPool, so its bounds
 and its first-in-first-out order carry over.
 */
module OutboxPools {
  import opened Wrappers
  import opened OutboxTable
  import opened OutboxProtocol
  import WP = WorkerPool

  predicate Busy(phase: Phase) {
    !phase.InBatch? && !phase.Queued?
  }

  function WorkingOf(s: State, owner: nat): set<nat> {
    set j | j in s.jobs && s.jobs[j].owner == owner && Busy(s.jobs[j].phase)
  }

  /** Two jobs of one process: the queued one is the older, and no worker has two. */
  ghost predicate TidyPair(a: Job, j: nat, b: Job, k: nat) {
    a.owner == b.owner ==>
      && (a.phase.InBatch? && b.phase.Queued? ==> k < j)
      && (Busy(a.phase) && Busy(b.phase) && a.phase.worker == b.phase.worker ==> j == k)
  }

  ghost predicate Tidy(c: Config, s: State) {
    && (forall j :: j in s.jobs ==> j < s.nextJob && (Busy(s.jobs[j].phase) ==> s.jobs[j].phase.worker < c.workers))
    && (forall j, k :: j in s.jobs && k in s.jobs ==> TidyPair(s.jobs[j], j, s.jobs[k], k))
  }

  lemma TidySubset(c: Config, s: State, gone: set<nat>)
    requires Tidy(c, s)
    ensures Tidy(c, Drop(s, gone))
  {
  }

  lemma TidyClaim(c: Config, s: State, owner: nat, returned: seq<Uuid>)
    requires Tidy(c, s) && forall id :: id in returned ==> id in s.rows
    ensures Tidy(c, AfterClaim(s, owner, returned))
  {
  }

  lemma TidyPhase(c: Config, s: State, j: nat, phase: Phase)
    requires Tidy(c, s) && j in s.jobs && !phase.InBatch?
    requires phase.Queued? ==> IsFirst(j, BatchOf(s, s.jobs[j].owner))
    requires Busy(phase) ==>
               phase.worker < c.workers &&
               forall k :: k in s.jobs && s.jobs[k].owner == s.jobs[j].owner && k != j && Busy(s.jobs[k].phase) ==>
                             s.jobs[k].phase.worker != phase.worker
    ensures Tidy(c, WithPhase(s, j, phase))
  {
    var s' := WithPhase(s, j, phase);
    forall a, b | a in s'.jobs && b in s'.jobs
      ensures TidyPair(s'.jobs[a], a, s'.jobs[b], b)
    {
      assert TidyPair(s.jobs[a], a, s.jobs[b], b);
      if b == j && phase.Queued? && a != j && s.jobs[a].phase.InBatch? && s.jobs[a].owner == s.jobs[j].owner {
        assert a in BatchOf(s, s.jobs[j].owner);
      }
    }
  }

  lemma TidyStep(c: Config, s: State, st: Step)
    requires Tidy(c, s)
    ensures Tidy(c, Apply(c, s, st))
  {
    hide Tidy, Drop, AfterClaim, AfterPublish, AfterMark, WithPhase, BatchOf, OwnedBy, QueueOf, Idle;
    if Enabled(c, s, st) {
      match st
      case Claim(owner, returned) => TidyClaim(c, s, owner, returned);
      case ReplyLost(owner) => TidySubset(c, s, BatchOf(s, owner));
      case Submit(j) => TidyPhase(c, s, j, Queued);
      case PoolFull(owner) => TidySubset(c, s, BatchOf(s, owner));
      case Start(j, worker) => TidyStart(c, s, j, worker);
      case Publish(j, inTopic, inDlq, err) => TidyPublish(c, s, j, inTopic, inDlq, err);
      case MarkApplied(j, clientNow) => TidyMark(c, s, j, clientNow);
      case MarkLost(j) => TidySubset(c, s, {j});
      case Crash(owner) => TidySubset(c, s, OwnedBy(s, owner));
      case Commit(msg) => SameTidy(c, s, AfterCommit(s, msg));
      case Tick(d) => SameTidy(c, s, s.(now := s.now + d));
    }
  }

  lemma SameTidy(c: Config, s: State, s': State)
    requires Tidy(c, s) && s'.jobs == s.jobs && s'.nextJob == s.nextJob
    ensures Tidy(c, s')
  {
  }

  lemma TidyStart(c: Config, s: State, j: nat, worker: nat)
    requires Tidy(c, s) && Enabled(c, s, Start(j, worker))
    ensures Tidy(c, WithPhase(s, j, Running(worker)))
  {
    forall k | k in s.jobs && s.jobs[k].owner == s.jobs[j].owner && k != j && Busy(s.jobs[k].phase)
      ensures s.jobs[k].phase.worker != worker
    {
      assert !s.jobs[k].phase.OnWorker(worker);
    }
    TidyPhase(c, s, j, Running(worker));
  }

  lemma TidyMark(c: Config, s: State, j: nat, clientNow: Time)
    requires Tidy(c, s) && AwaitsMark(s, j)
    ensures Tidy(c, AfterMark(c, s, j, clientNow))
  {
    TidySubset(c, s, {j});
    assert Drop(s, {j}).jobs == s.jobs - {j};
    SameTidy(c, Drop(s, {j}), AfterMark(c, s, j, clientNow));
  }

  lemma TidyPublish(c: Config, s: State, j: nat, inTopic: bool, inDlq: bool, err: Option<string>)
    requires Tidy(c, s) && IsRunning(s, j)
    ensures Tidy(c, AfterPublish(s, j, inTopic, inDlq, err))
  {
    forall k | k in s.jobs && s.jobs[k].owner == s.jobs[j].owner && k != j
      ensures Busy(s.jobs[k].phase) ==> s.jobs[k].phase.worker != s.jobs[j].phase.worker
    {
      assert TidyPair(s.jobs[j], j, s.jobs[k], k);
    }
    var phase := Outcome(s.jobs[j].phase.worker, err);
    TidyPhase(c, s, j, phase);
    SameTidy(c, WithPhase(s, j, phase), AfterPublish(s, j, inTopic, inDlq, err));
  }

  // --- The pool of one process -----------------------------------------------------

  /** q lists the set in increasing order. */
  ghost predicate Lists(q: seq<nat>, members: set<nat>) {
    && (forall i, k :: 0 <= i < k < |q| ==> q[i] < q[k])
    && (forall x :: x in q <==> x in members)
  }

  ghost predicate Holds(q: seq<nat>, members: set<nat>) {
    && (forall i, k :: 0 <= i < k < |q| ==> q[i] != q[k])
    && (forall x :: x in q <==> x in members)
  }

  /** `p` is what the process's pool looks like: its channel in submission order, its busy workers in any order. */
  ghost predicate Shows(c: Config, s: State, owner: nat, p: WP.PoolState<nat>) {
    && p.capacity == c.queueSize && p.workers == c.workers && !p.closed
    && Lists(p.queue, QueueOf(s, owner))
    && Holds(p.running, WorkingOf(s, owner))
  }

  lemma {:induction false} HoldsSize(q: seq<nat>, members: set<nat>)
    requires Holds(q, members)
    ensures |q| == |members|
  {
    if |q| == 0 {
      assert members == {};
    } else {
      var last := q[|q| - 1];
      assert last in q;
      HoldsSize(q[..|q| - 1], members - {last});
    }
  }

  // Distinct labels below n, none of them `free`: fewer than n of them.
  lemma {:induction false} Pigeons(members: set<nat>, tag: map<nat, nat>, n: nat)
    requires members <= tag.Keys
    requires forall j :: j in members ==> tag[j] < n
    requires forall j, k :: j in members && k in members && tag[j] == tag[k] ==> j == k
    ensures |members| <= n
  {
    if n == 0 {
      assert members == {};
    } else if j :| j in members && tag[j] == n - 1 {
      Pigeons(members - {j}, tag, n - 1);
    } else {
      Pigeons(members, tag, n - 1);
    }
  }

  lemma FreeWorker(members: set<nat>, tag: map<nat, nat>, n: nat, free: nat)
    requires members <= tag.Keys && free < n
    requires forall j :: j in members ==> tag[j] < n && tag[j] != free
    requires forall j, k :: j in members && k in members && tag[j] == tag[k] ==> j == k
    ensures |members| < n
  {
    var moved := map j | j in members :: if tag[j] == n - 1 then free else tag[j];
    Pigeons(members, moved, n - 1);
  }

  // An idle worker means fewer busy ones than there are workers.
  lemma StartHasRoom(c: Config, s: State, j: nat, worker: nat)
    requires Tidy(c, s) && Enabled(c, s, Start(j, worker))
    ensures |WorkingOf(s, s.jobs[j].owner)| < c.workers
  {
    var busy := WorkingOf(s, s.jobs[j].owner);
    var tag := map k | k in busy :: s.jobs[k].phase.worker;
    forall a, b | a in busy && b in busy && tag[a] == tag[b]
      ensures a == b
    {
      assert TidyPair(s.jobs[a], a, s.jobs[b], b);
    }
    forall k | k in busy
      ensures tag[k] < c.workers && tag[k] != worker
    {
      assert !s.jobs[k].phase.OnWorker(worker);
    }
    FreeWorker(busy, tag, c.workers, worker);
  }

  // --- The pool's own view of a run ------------------------------------------------

  /** The first place of j. */
  function Position(q: seq<nat>, j: nat): (i: nat)
    ensures j in q ==> i < |q| && q[i] == j
  {
    if |q| == 0 || q[0] == j then 0 else 1 + Position(q[1..], j)
  }

  /**
   What a step of the protocol is to the pool of one process: its submissions are submissions, its starts
   are starts, and a mark, applied or lost, is the end of its job, which fails unless publish and mark succeed.
   */
  function Means(s: State, st: Step, owner: nat, p: WP.PoolState<nat>): Option<WP.PoolStep<nat>> {
    match st
    case Submit(j) => if Owns(s, owner, j) then Some(WP.PoolStep.Submit(j)) else None
    case Start(j, _) => if Owns(s, owner, j) then Some(WP.PoolStep.Start) else None
    case MarkApplied(j, _) =>
      if Owns(s, owner, j) then Some(WP.Finish(Position(p.running, j), !s.jobs[j].phase.Sent?)) else None
    case MarkLost(j) => if Owns(s, owner, j) then Some(WP.Finish(Position(p.running, j), true)) else None
    case _ => None
  }

  predicate Owns(s: State, owner: nat, j: nat) {
    j in s.jobs && s.jobs[j].owner == owner
  }

  /** A crash is the end of the pool; the process starts with a new one. */
  function PoolAfter(c: Config, s: State, st: Step, owner: nat, p: WP.PoolState<nat>): WP.PoolState<nat> {
    if !Enabled(c, s, st) then p
    else if st == Crash(owner) then WP.New(c.workers, c.queueSize)
    else
      var step := Means(s, st, owner, p);
      if step.Some? then WP.Apply(p, step.value) else p
  }

  /** The jobs whose submission was accepted, that a worker started, and that ended, since the process last started. */
  datatype History = History(accepted: seq<nat>, started: seq<nat>, ended: seq<nat>)

  const NONE := History([], [], [])

  /** Read off the steps of the protocol alone. */
  function Noted(c: Config, s: State, st: Step, owner: nat, h: History): History {
    if !Enabled(c, s, st) then h
    else
      match st
      case Submit(j) => if Owns(s, owner, j) then h.(accepted := h.accepted + [j]) else h
      case Start(j, _) => if Owns(s, owner, j) then h.(started := h.started + [j]) else h
      case MarkApplied(j, _) => if Owns(s, owner, j) then h.(ended := h.ended + [j]) else h
      case MarkLost(j) => if Owns(s, owner, j) then h.(ended := h.ended + [j]) else h
      case Crash(o) => if o == owner then NONE else h
      case _ => h
  }

  predicate HasHistory(p: WP.PoolState<nat>, h: History) {
    p.accepted == h.accepted && p.started == h.started && p.finished == h.ended
  }

  lemma SubmitShows(c: Config, s: State, owner: nat, p: WP.PoolState<nat>, j: nat)
    requires Tidy(c, s) && Shows(c, s, owner, p) && Enabled(c, s, Submit(j))
    ensures var p' := if s.jobs[j].owner == owner then WP.Apply(p, WP.PoolStep.Submit(j)) else p;
            Shows(c, WithPhase(s, j, Queued), owner, p')
    ensures s.jobs[j].owner == owner ==> WP.Apply(p, WP.PoolStep.Submit(j)) == WP.Accept(p, j)
  {
    SubmitSets(c, s, owner, j);
    hide Tidy, WithPhase, QueueOf, WorkingOf, BatchOf, Shows, WP.Apply, WP.HasRoom, WP.Accept, IsFirst;
    if s.jobs[j].owner == owner {
      AcceptShows(c, s, WithPhase(s, j, Queued), owner, p, j);
    } else {
      SameShows(c, s, WithPhase(s, j, Queued), owner, p);
    }
  }

  lemma AcceptShows(c: Config, s: State, s': State, owner: nat, p: WP.PoolState<nat>, j: nat)
    requires Shows(c, s, owner, p) && |QueueOf(s, owner)| < c.queueSize
    requires WorkingOf(s', owner) == WorkingOf(s, owner) && QueueOf(s', owner) == QueueOf(s, owner) + {j}
    requires forall x :: x in QueueOf(s, owner) ==> x < j
    ensures WP.Apply(p, WP.PoolStep.Submit(j)) == WP.Accept(p, j) && Shows(c, s', owner, WP.Accept(p, j))
  {
    hide QueueOf, WorkingOf, Lists, Holds;
    ListsSize(p.queue, QueueOf(s, owner));
    ListsSnoc(p.queue, QueueOf(s, owner), j);
  }

  lemma SubmitSets(c: Config, s: State, owner: nat, j: nat)
    requires Tidy(c, s) && Enabled(c, s, Submit(j))
    ensures WorkingOf(WithPhase(s, j, Queued), owner) == WorkingOf(s, owner)
    ensures QueueOf(WithPhase(s, j, Queued), owner) == QueueOf(s, owner) + if s.jobs[j].owner == owner then {j} else {}
    ensures s.jobs[j].owner == owner ==> forall x :: x in QueueOf(s, owner) ==> x < j
  {
    forall x | x in QueueOf(s, owner) && s.jobs[j].owner == owner
      ensures x < j
    {
      assert TidyPair(s.jobs[j], j, s.jobs[x], x);
    }
  }

  lemma StartShows(c: Config, s: State, owner: nat, p: WP.PoolState<nat>, j: nat, worker: nat)
    requires Tidy(c, s) && Shows(c, s, owner, p) && Enabled(c, s, Start(j, worker))
    ensures s.jobs[j].owner == owner ==> WP.CanStart(p) && p.queue[0] == j
    ensures var p' := if s.jobs[j].owner == owner then WP.Take(p) else p;
            Shows(c, WithPhase(s, j, Running(worker)), owner, p')
  {
    var s' := WithPhase(s, j, Running(worker));
    if s.jobs[j].owner == owner {
      assert j in p.queue && p.queue[0] in QueueOf(s, owner);
      StartHasRoom(c, s, j, worker);
      HoldsSize(p.running, WorkingOf(s, owner));
      assert QueueOf(s', owner) == QueueOf(s, owner) - {j};
      assert WorkingOf(s', owner) == WorkingOf(s, owner) + {j};
      ListsTail(p.queue, QueueOf(s, owner));
      HoldsSnoc(p.running, WorkingOf(s, owner), j);
    } else {
      assert QueueOf(s', owner) == QueueOf(s, owner);
      assert WorkingOf(s', owner) == WorkingOf(s, owner);
    }
  }

  lemma ListsSize(q: seq<nat>, members: set<nat>)
    requires Lists(q, members)
    ensures |q| == |members|
  {
    assert Holds(q, members);
    HoldsSize(q, members);
  }

  lemma ListsSnoc(q: seq<nat>, members: set<nat>, j: nat)
    requires Lists(q, members) && forall x :: x in members ==> x < j
    ensures Lists(q + [j], members + {j})
  {
    assert forall i :: 0 <= i < |q| ==> q[i] in members;
  }

  lemma ListsTail(q: seq<nat>, members: set<nat>)
    requires Lists(q, members) && |q| > 0
    ensures Lists(q[1..], members - {q[0]})
  {
    forall x
      ensures x in q[1..] <==> x in members - {q[0]}
    {
      assert q == [q[0]] + q[1..];
    }
  }

  lemma HoldsSnoc(q: seq<nat>, members: set<nat>, j: nat)
    requires Holds(q, members) && j !in members
    ensures Holds(q + [j], members + {j})
  {
  }

  lemma HoldsMinus(q: seq<nat>, members: set<nat>, i: nat)
    requires Holds(q, members) && i < |q|
    ensures Holds(q[..i] + q[i + 1..], members - {q[i]})
  {
    var rest := q[..i] + q[i + 1..];
    assert q == q[..i] + [q[i]] + q[i + 1..];
    forall x
      ensures x in rest <==> x in members - {q[i]}
    {
      assert x in q <==> x in q[..i] || x == q[i] || x in q[i + 1..];
    }
  }

  lemma MarkShows(c: Config, s: State, s': State, owner: nat, p: WP.PoolState<nat>, j: nat, failed: bool)
    requires Shows(c, s, owner, p) && AwaitsMark(s, j) && s'.jobs == s.jobs - {j}
    ensures var i := Position(p.running, j);
            if s.jobs[j].owner == owner
            then i < |p.running| && p.running[i] == j && Shows(c, s', owner, WP.Apply(p, WP.Finish(i, failed)))
            else Shows(c, s', owner, p)
  {
    assert QueueOf(s', owner) == QueueOf(s, owner);
    if s.jobs[j].owner == owner {
      assert j in WorkingOf(s, owner);
      HoldsMinus(p.running, WorkingOf(s, owner), Position(p.running, j));
      assert WorkingOf(s', owner) == WorkingOf(s, owner) - {j};
    } else {
      assert WorkingOf(s', owner) == WorkingOf(s, owner);
    }
  }

  // A step that moves no job of the process between channel, workers and gone.
  lemma SameShows(c: Config, s: State, s': State, owner: nat, p: WP.PoolState<nat>)
    requires Shows(c, s, owner, p)
    requires QueueOf(s', owner) == QueueOf(s, owner) && WorkingOf(s', owner) == WorkingOf(s, owner)
    ensures Shows(c, s', owner, p)
  {
  }

  lemma SameJobsShows(c: Config, s: State, s': State, owner: nat, p: WP.PoolState<nat>)
    requires Shows(c, s, owner, p) && s'.jobs == s.jobs
    ensures Shows(c, s', owner, p)
  {
    SameShows(c, s, s', owner, p);
  }

  // Batches come and go beside the pool; a publish leaves its job on its worker.
  lemma OutsideShows(c: Config, s: State, s': State, owner: nat, p: WP.PoolState<nat>)
    requires Shows(c, s, owner, p)
    requires forall j :: j in s.jobs && (Busy(s.jobs[j].phase) || s.jobs[j].phase.Queued?) ==>
                           && j in s'.jobs && s'.jobs[j].owner == s.jobs[j].owner
                           && Busy(s'.jobs[j].phase) == Busy(s.jobs[j].phase)
                           && s'.jobs[j].phase.Queued? == s.jobs[j].phase.Queued?
    requires forall j :: j in s'.jobs && !s'.jobs[j].phase.InBatch? ==>
                           j in s.jobs && !s.jobs[j].phase.InBatch? && s'.jobs[j].owner == s.jobs[j].owner
    ensures Shows(c, s', owner, p)
  {
    SameShows(c, s, s', owner, p);
  }

  lemma ClaimShows(c: Config, s: State, o: nat, returned: seq<Uuid>, owner: nat, p: WP.PoolState<nat>)
    requires Tidy(c, s) && Shows(c, s, owner, p) && Enabled(c, s, Claim(o, returned))
    ensures Shows(c, AfterClaim(s, o, returned), owner, p)
  {
    var s' := AfterClaim(s, o, returned);
    assert forall j :: j in s.jobs ==> j < s.nextJob && j !in NewJobs(s, o, returned);
    hide Tidy, Shows, Enabled, Locked, Charged;
    OutsideShows(c, s, s', owner, p);
  }

  lemma PublishShows(c: Config, s: State, j: nat, inTopic: bool, inDlq: bool, err: Option<string>, owner: nat,
                     p: WP.PoolState<nat>)
    requires Shows(c, s, owner, p) && IsRunning(s, j)
    ensures Shows(c, AfterPublish(s, j, inTopic, inDlq, err), owner, p)
  {
    OutsideShows(c, s, AfterPublish(s, j, inTopic, inDlq, err), owner, p);
  }

  lemma DropBatchShows(c: Config, s: State, o: nat, owner: nat, p: WP.PoolState<nat>)
    requires Shows(c, s, owner, p)
    ensures Shows(c, Drop(s, BatchOf(s, o)), owner, p)
  {
    OutsideShows(c, s, Drop(s, BatchOf(s, o)), owner, p);
  }

  lemma DropOne(s: State, j: nat)
    ensures Drop(s, {j}).jobs == s.jobs - {j}
  {
  }

  lemma MarkedJobs(c: Config, s: State, j: nat, clientNow: Time)
    requires AwaitsMark(s, j)
    ensures AfterMark(c, s, j, clientNow).jobs == s.jobs - {j}
  {
  }

  lemma PoolStepShows(c: Config, s: State, st: Step, owner: nat, p: WP.PoolState<nat>, h: History)
    requires Tidy(c, s) && Shows(c, s, owner, p) && HasHistory(p, h)
    ensures Shows(c, Apply(c, s, st), owner, PoolAfter(c, s, st, owner, p))
    ensures HasHistory(PoolAfter(c, s, st, owner, p), Noted(c, s, st, owner, h))
  {
    hide Tidy, Shows, Drop, AfterClaim, AfterPublish, WithPhase, Position;
    hide BatchOf, QueueOf, OwnedBy, Claimable, IsFirst, Idle, AfterMark;
    if Enabled(c, s, st) {
      match st
      case Commit(msg) => SameJobsShows(c, s, AfterCommit(s, msg), owner, p);
      case Claim(o, returned) => ClaimShows(c, s, o, returned, owner, p);
      case ReplyLost(o) => DropBatchShows(c, s, o, owner, p);
      case Submit(j) => SubmitShows(c, s, owner, p, j);
      case PoolFull(o) => DropBatchShows(c, s, o, owner, p);
      case Start(j, worker) => StartShows(c, s, owner, p, j, worker);
      case Publish(j, inTopic, inDlq, err) => PublishShows(c, s, j, inTopic, inDlq, err, owner, p);
      case MarkApplied(j, clientNow) =>
        MarkedJobs(c, s, j, clientNow);
        MarkShows(c, s, AfterMark(c, s, j, clientNow), owner, p, j, !s.jobs[j].phase.Sent?);
      case MarkLost(j) =>
        DropOne(s, j);
        MarkShows(c, s, Drop(s, {j}), owner, p, j, true);
      case Crash(o) => CrashShows(c, s, o, owner, p);
      case Tick(d) => SameJobsShows(c, s, s.(now := s.now + d), owner, p);
    }
  }

  lemma CrashShows(c: Config, s: State, crashed: nat, owner: nat, p: WP.PoolState<nat>)
    requires Shows(c, s, owner, p)
    ensures var p' := if crashed == owner then WP.New(c.workers, c.queueSize) else p;
            Shows(c, Drop(s, OwnedBy(s, crashed)), owner, p')
  {
    var s' := Drop(s, OwnedBy(s, crashed));
    if crashed == owner {
      assert QueueOf(s', owner) == {} && WorkingOf(s', owner) == {};
    } else {
      assert QueueOf(s', owner) == QueueOf(s, owner) && WorkingOf(s', owner) == WorkingOf(s, owner);
    }
  }

  // --- The runs ----------------------------------------------------------------------

  /** The state of a pool of this configuration after `trace`. */
  function PoolRun(c: Config, trace: seq<WP.PoolStep<nat>>): WP.PoolState<nat> {
    WP.Exec(WP.New(c.workers, c.queueSize), trace)
  }

  function TraceAfter(c: Config, s: State, st: Step, owner: nat, trace: seq<WP.PoolStep<nat>>): seq<WP.PoolStep<nat>> {
    if !Enabled(c, s, st) then trace
    else if st == Crash(owner) then []
    else
      var step := Means(s, st, owner, PoolRun(c, trace));
      if step.Some? then trace + [step.value] else trace
  }

  /** The run of pool steps that a run of the protocol is to one process, since the process last started. */
  function Trace(c: Config, start: Time, steps: seq<Step>, owner: nat): seq<WP.PoolStep<nat>> {
    if |steps| == 0 then []
    else
      var before, st := steps[..|steps| - 1], steps[|steps| - 1];
      TraceAfter(c, Run(c, start, before), st, owner, Trace(c, start, before, owner))
  }

  function HistoryOf(c: Config, start: Time, steps: seq<Step>, owner: nat): History {
    if |steps| == 0 then NONE
    else
      var before, st := steps[..|steps| - 1], steps[|steps| - 1];
      Noted(c, Run(c, start, before), st, owner, HistoryOf(c, start, before, owner))
  }

  lemma TraceRuns(c: Config, s: State, st: Step, owner: nat, trace: seq<WP.PoolStep<nat>>)
    ensures PoolRun(c, TraceAfter(c, s, st, owner, trace)) == PoolAfter(c, s, st, owner, PoolRun(c, trace))
  {
    hide Means, Enabled, WP.Apply;
    var step := Means(s, st, owner, PoolRun(c, trace));
    if step.Some? {
      assert (trace + [step.value])[..|trace|] == trace;
    }
  }

  /**
   In every run each process's queue and workers are those of a worker pool that has gone through the run's
   own submissions, starts and ends, so the pool's bounds and its conservation law hold for the process.
   */
  lemma {:induction false} ProcessesArePools(c: Config, start: Time, steps: seq<Step>, owner: nat)
    ensures var s, p := Run(c, start, steps), PoolRun(c, Trace(c, start, steps, owner));
            && Tidy(c, s) && Shows(c, s, owner, p) && WP.Conserved(p)
            && HasHistory(p, HistoryOf(c, start, steps, owner))
            && |QueueOf(s, owner)| <= c.queueSize && |WorkingOf(s, owner)| <= c.workers
  {
    var s := Run(c, start, steps);
    if |steps| == 0 {
      assert QueueOf(s, owner) == {} && WorkingOf(s, owner) == {};
    } else {
      var before, st := steps[..|steps| - 1], steps[|steps| - 1];
      var sofar := Trace(c, start, before, owner);
      ProcessesArePools(c, start, before, owner);
      TidyStep(c, Run(c, start, before), st);
      PoolStepShows(c, Run(c, start, before), st, owner, PoolRun(c, sofar), HistoryOf(c, start, before, owner));
      TraceRuns(c, Run(c, start, before), st, owner, sofar);
    }
    var p := PoolRun(c, Trace(c, start, steps, owner));
    WP.PoolConservation<nat>(c.workers, c.queueSize, Trace(c, start, steps, owner));
    ListsSize(p.queue, QueueOf(s, owner));
    HoldsSize(p.running, WorkingOf(s, owner));
  }

  // --- First in, first out -------------------------------------------------------------

  ghost predicate Increasing(q: seq<nat>) {
    forall i, k :: 0 <= i < k < |q| ==> q[i] < q[k]
  }

  /** Jobs are accepted in the order in which they were claimed, and the batch comes after them. */
  ghost predicate ClaimOrder(s: State, owner: nat, accepted: seq<nat>) {
    && Increasing(accepted)
    && (forall i :: 0 <= i < |accepted| ==> accepted[i] < s.nextJob)
    && (forall i, j :: 0 <= i < |accepted| && j in BatchOf(s, owner) ==> accepted[i] < j)
  }

  // The batch loses members, or gains new jobs; numbers are never used again.
  lemma ClaimOrderKept(s: State, s': State, owner: nat, accepted: seq<nat>)
    requires ClaimOrder(s, owner, accepted) && s.nextJob <= s'.nextJob
    requires forall j :: j in BatchOf(s', owner) ==> j in BatchOf(s, owner) || j >= s.nextJob
    ensures ClaimOrder(s', owner, accepted)
  {
  }

  lemma ClaimOrderSubmit(c: Config, s: State, owner: nat, accepted: seq<nat>, j: nat)
    requires ClaimOrder(s, owner, accepted) && Tidy(c, s) && Enabled(c, s, Submit(j))
    ensures ClaimOrder(WithPhase(s, j, Queued), owner, if Owns(s, owner, j) then accepted + [j] else accepted)
  {
    hide Tidy;
    var s' := WithPhase(s, j, Queued);
    assert forall k :: k in BatchOf(s', owner) ==> k in BatchOf(s, owner) && k != j;
    assert j in BatchOf(s, s.jobs[j].owner);
    assert j < s.nextJob by {
      JobNumbers(c, s, j);
    }
  }

  lemma JobNumbers(c: Config, s: State, j: nat)
    requires Tidy(c, s) && j in s.jobs
    ensures j < s.nextJob
  {
  }

  // Which jobs a step can put in the batch.
  lemma BatchGrowth(c: Config, s: State, st: Step, owner: nat)
    ensures Apply(c, s, st).nextJob >= s.nextJob
    ensures forall j :: j in BatchOf(Apply(c, s, st), owner) ==> j in BatchOf(s, owner) || j >= s.nextJob
  {
  }

  lemma ClaimOrderStep(c: Config, s: State, st: Step, owner: nat, h: History)
    requires ClaimOrder(s, owner, h.accepted) && Tidy(c, s)
    ensures ClaimOrder(Apply(c, s, st), owner, Noted(c, s, st, owner, h).accepted)
  {
    hide ClaimOrder, Tidy, WithPhase;
    if st.Submit? && Enabled(c, s, st) {
      ClaimOrderSubmit(c, s, owner, h.accepted, st.j);
    } else if st == Crash(owner) {
      EmptyOrder(Apply(c, s, st), owner);
    } else {
      BatchGrowth(c, s, st, owner);
      ClaimOrderKept(s, Apply(c, s, st), owner, h.accepted);
    }
  }

  lemma EmptyOrder(s: State, owner: nat)
    ensures ClaimOrder(s, owner, [])
  {
  }

  lemma {:induction false} AcceptedInClaimOrder(c: Config, start: Time, steps: seq<Step>, owner: nat)
    ensures ClaimOrder(Run(c, start, steps), owner, HistoryOf(c, start, steps, owner).accepted)
  {
    if |steps| > 0 {
      var before, st := steps[..|steps| - 1], steps[|steps| - 1];
      AcceptedInClaimOrder(c, start, before, owner);
      ProcessesArePools(c, start, before, owner);
      ClaimOrderStep(c, Run(c, start, before), st, owner, HistoryOf(c, start, before, owner));
    }
  }

  lemma {:induction false} HoldsMultiset(q: seq<nat>, members: set<nat>)
    requires Holds(q, members)
    ensures multiset(q) == multiset(members)
  {
    if |q| == 0 {
      assert members == {};
    } else {
      var before, last := q[..|q| - 1], q[|q| - 1];
      assert q == before + [last];
      assert last in q;
      HoldsMultiset(before, members - {last});
      assert members == (members - {last}) + {last};
    }
  }

  /**
   Since a process last started: it has accepted jobs in the order in which they were claimed, started them
   in the order in which they were accepted, those accepted and not started are its queue in that order, and
   each job started has ended once or is on a worker.
   */
  lemma FirstInFirstOut(c: Config, start: Time, steps: seq<Step>, owner: nat)
    ensures var s, h := Run(c, start, steps), HistoryOf(c, start, steps, owner);
            && Increasing(h.accepted)
            && h.started <= h.accepted
            && Lists(h.accepted[|h.started|..], QueueOf(s, owner))
            && multiset(h.started) == multiset(h.ended) + multiset(WorkingOf(s, owner))
  {
    var s, p := Run(c, start, steps), PoolRun(c, Trace(c, start, steps, owner));
    ProcessesArePools(c, start, steps, owner);
    AcceptedInClaimOrder(c, start, steps, owner);
    hide Run, Trace, HistoryOf, Tidy, Lists;
    assert p.accepted[|p.started|..] == p.queue;
    HoldsMultiset(p.running, WorkingOf(s, owner));
  }
}
