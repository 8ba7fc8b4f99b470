/**
 The transactional outbox as a step system: one table, one database clock, any
 number of processes, each with a poller and a bounded worker pool. A job is one
 claimed message on its way through batch, queue and worker to its mark.

 A step whose guard is false changes nothing, so every sequence of steps is a run.
 */
module OutboxProtocol {
  import opened Wrappers
  import opened OutboxTable

  datatype Config = Config(
    window: Time,        // reclaim window
    maxAttempts: int,
    interval: Interval,
    batchSize: nat,
    queueSize: nat,
    workers: nat)

  datatype Phase =
    | InBatch
    | Queued
    | Running(worker: nat)
    | Sent(worker: nat)
    | Refused(worker: nat, reason: string)
  {
    predicate Published() { Sent? || Refused? }
    predicate OnWorker(w: nat) { !InBatch? && !Queued? && worker == w }
  }

  datatype Job = Job(id: Uuid, snapshot: nat, claimedAt: Time, owner: nat, phase: Phase)

  datatype Claimed = Claimed(at: Time, attempts: nat)

  /** What has happened to one message so far. */
  datatype Ledger = Ledger(
    claims: seq<Claimed>,
    dropped: nat,          // claims given up before Publish was called
    publishes: nat,        // Publish calls
    lost: nat,             // publishes whose mark was never applied
    processedMarks: nat,   // MarkProcessed statements applied
    failures: seq<Time>,   // when each attempt was recorded
    exhausted: bool)       // MarkExhausted was applied

  datatype State = State(
    now: Time,
    rows: Table,
    jobs: map<nat, Job>,
    nextJob: nat,
    topic: seq<Uuid>,
    deadLetters: set<Uuid>,
    ledger: map<Uuid, Ledger>)

  datatype Step =
    | Commit(msg: Message)                          // a writer's transaction commits
    | Claim(owner: nat, returned: seq<Uuid>)        // ClaimBatch, rows in any order
    | ReplyLost(owner: nat)                         // the claim committed, its rows never arrived
    | Submit(j: nat)
    | PoolFull(owner: nat)
    | Start(j: nat, worker: nat)
    | Publish(j: nat, inTopic: bool, inDlq: bool, err: Option<string>)
    | MarkApplied(j: nat, clientNow: Time)
    | MarkLost(j: nat)
    | Crash(owner: nat)
    | Tick(d: nat)

  const NO_HISTORY := Ledger([], 0, 0, 0, 0, [], false)

  function Init(start: Time): State {
    State(start, map[], map[], 0, [], {}, map[])
  }

  function BatchOf(s: State, owner: nat): set<nat> {
    set j | j in s.jobs && s.jobs[j].owner == owner && s.jobs[j].phase.InBatch?
  }

  function QueueOf(s: State, owner: nat): set<nat> {
    set j | j in s.jobs && s.jobs[j].owner == owner && s.jobs[j].phase.Queued?
  }

  function OwnedBy(s: State, owner: nat): set<nat> {
    set j | j in s.jobs && s.jobs[j].owner == owner
  }

  /** The jobs that hold message `id`, split by whether they have called Publish. */
  function Holders(jobs: map<nat, Job>, id: Uuid, published: bool): set<nat> {
    set j | j in jobs && jobs[j].id == id && jobs[j].phase.Published() == published
  }

  // Job numbers grow in claim order and a batch is submitted in order, so the
  // front of a batch and the head of a queue are their smallest numbers.
  predicate IsFirst(j: nat, line: set<nat>) {
    j in line && forall k :: k in line ==> j <= k
  }

  predicate Idle(s: State, owner: nat, worker: nat) {
    forall j :: j in s.jobs && s.jobs[j].owner == owner ==> !s.jobs[j].phase.OnWorker(worker)
  }

  predicate Claimable(c: Config, s: State, returned: seq<Uuid>) {
    && |returned| <= c.batchSize
    && (forall i, k :: 0 <= i < k < |returned| ==> returned[i] != returned[k])
    && (forall id :: id in returned ==> id in s.rows && Eligible(s.rows[id], s.now, c.window, c.maxAttempts))
  }

  predicate IsRunning(s: State, j: nat) {
    j in s.jobs && s.jobs[j].phase.Running?
  }

  predicate AwaitsMark(s: State, j: nat) {
    j in s.jobs && s.jobs[j].phase.Published()
  }

  predicate Enabled(c: Config, s: State, st: Step) {
    match st
    case Commit(msg) => msg.id !in s.rows
    case Claim(owner, returned) => BatchOf(s, owner) == {} && Claimable(c, s, returned)
    case ReplyLost(owner) => BatchOf(s, owner) != {}
    case Submit(j) =>
      && j in s.jobs
      && IsFirst(j, BatchOf(s, s.jobs[j].owner))
      && |QueueOf(s, s.jobs[j].owner)| < c.queueSize
    case PoolFull(owner) => BatchOf(s, owner) != {} && |QueueOf(s, owner)| >= c.queueSize
    case Start(j, worker) =>
      && j in s.jobs
      && IsFirst(j, QueueOf(s, s.jobs[j].owner))
      && worker < c.workers
      && Idle(s, s.jobs[j].owner, worker)
    case Publish(j, inTopic, inDlq, err) => IsRunning(s, j) && (err.None? ==> inTopic || inDlq)
    case MarkApplied(j, _) => AwaitsMark(s, j)
    case MarkLost(j) => AwaitsMark(s, j)
    case Crash(owner) => true
    case Tick(d) => true
  }

  function Numbers(from: nat, count: nat): (r: set<nat>)
    ensures forall j: nat :: j in r <==> from <= j < from + count
  {
    if count == 0 then {} else Numbers(from, count - 1) + {from + count - 1}
  }

  function NewJobs(s: State, owner: nat, returned: seq<Uuid>): map<nat, Job>
    requires forall id :: id in returned ==> id in s.rows
  {
    map j: nat | j in Numbers(s.nextJob, |returned|) ::
      Job(returned[j - s.nextJob], s.rows[returned[j - s.nextJob]].attempts, s.now, owner, InBatch)
  }

  function Charged(s: State, ids: set<Uuid>): map<Uuid, Ledger> {
    map id | id in s.ledger ::
      if id in ids && id in s.rows
      then s.ledger[id].(claims := s.ledger[id].claims + [Claimed(s.now, s.rows[id].attempts)])
      else s.ledger[id]
  }

  function AfterCommit(s: State, msg: Message): State {
    s.(rows := s.rows[msg.id := Inserted(msg, s.now)], ledger := s.ledger[msg.id := NO_HISTORY])
  }

  function AfterClaim(s: State, owner: nat, returned: seq<Uuid>): State
    requires forall id :: id in returned ==> id in s.rows
  {
    var jobs, nextJob := s.jobs + NewJobs(s, owner, returned), s.nextJob + |returned|;
    var rows, ledger := Locked(s.rows, Ids(returned), s.now), Charged(s, Ids(returned));
    s.(rows := rows, jobs := jobs, nextJob := nextJob, ledger := ledger)
  }

  function GivenUp(l: Ledger, unpublished: nat, published: nat): Ledger {
    l.(dropped := l.dropped + unpublished, lost := l.lost + published)
  }

  /** The jobs in `gone` disappear without a mark. */
  function Drop(s: State, gone: set<nat>): State {
    var jobs := map j | j in s.jobs && j !in gone :: s.jobs[j];
    var ledger := map id | id in s.ledger ::
                    GivenUp(s.ledger[id], |Holders(s.jobs, id, false) * gone|, |Holders(s.jobs, id, true) * gone|);
    s.(jobs := jobs, ledger := ledger)
  }

  function MarkOf(c: Config, job: Job, clientNow: Time): Mark
    requires job.phase.Published()
  {
    var err := if job.phase.Sent? then None else Some(job.phase.reason);
    Verdict(job.snapshot, err, c.maxAttempts, c.interval, clientNow)
  }

  function Recorded(l: Ledger, m: Mark, now: Time): Ledger {
    match m
    case Processed(_) => l.(processedMarks := l.processedMarks + 1)
    case Failed(_, _) => l.(failures := l.failures + [now])
    case Exhausted(_) => l.(failures := l.failures + [now], exhausted := true)
  }

  function WithPhase(s: State, j: nat, phase: Phase): State
    requires j in s.jobs
  {
    s.(jobs := s.jobs[j := s.jobs[j].(phase := phase)])
  }

  function Charge(ledger: map<Uuid, Ledger>, id: Uuid): map<Uuid, Ledger> {
    if id in ledger then ledger[id := ledger[id].(publishes := ledger[id].publishes + 1)] else ledger
  }

  function Outcome(worker: nat, err: Option<string>): Phase {
    if err.None? then Sent(worker) else Refused(worker, err.value)
  }

  function AfterPublish(s: State, j: nat, inTopic: bool, inDlq: bool, err: Option<string>): State
    requires IsRunning(s, j)
  {
    var job := s.jobs[j];
    var jobs := s.jobs[j := job.(phase := Outcome(job.phase.worker, err))];
    var topic := if inTopic then s.topic + [job.id] else s.topic;
    var deadLetters := if inDlq then s.deadLetters + {job.id} else s.deadLetters;
    s.(jobs := jobs, ledger := Charge(s.ledger, job.id), topic := topic, deadLetters := deadLetters)
  }

  function RecordIn(ledger: map<Uuid, Ledger>, id: Uuid, m: Mark, now: Time): map<Uuid, Ledger> {
    if id in ledger then ledger[id := Recorded(ledger[id], m, now)] else ledger
  }

  function AfterMark(c: Config, s: State, j: nat, clientNow: Time): State
    requires AwaitsMark(s, j)
  {
    var job := s.jobs[j];
    var m := MarkOf(c, job, clientNow);
    var rows, ledger := MarkTable(s.rows, job.id, m, s.now), RecordIn(s.ledger, job.id, m, s.now);
    s.(rows := rows, jobs := s.jobs - {j}, ledger := ledger)
  }

  function Apply(c: Config, s: State, st: Step): State {
    if !Enabled(c, s, st) then s
    else
      match st
      case Commit(msg) => AfterCommit(s, msg)
      case Claim(owner, returned) => AfterClaim(s, owner, returned)
      case ReplyLost(owner) => Drop(s, BatchOf(s, owner))
      case Submit(j) => WithPhase(s, j, Queued)
      case PoolFull(owner) => Drop(s, BatchOf(s, owner))
      case Start(j, worker) => WithPhase(s, j, Running(worker))
      case Publish(j, inTopic, inDlq, err) => AfterPublish(s, j, inTopic, inDlq, err)
      case MarkApplied(j, clientNow) => AfterMark(c, s, j, clientNow)
      case MarkLost(j) => Drop(s, {j})
      case Crash(owner) => Drop(s, OwnedBy(s, owner))
      case Tick(d) => s.(now := s.now + d)
  }

  /** The state after running `steps` from `s`. */
  function Exec(c: Config, s: State, steps: seq<Step>): State {
    if |steps| == 0 then s
    else Apply(c, Exec(c, s, steps[..|steps| - 1]), steps[|steps| - 1])
  }

  function Run(c: Config, start: Time, steps: seq<Step>): State {
    Exec(c, Init(start), steps)
  }

  lemma {:induction false} ExecConcat(c: Config, s: State, a: seq<Step>, b: seq<Step>)
    ensures Exec(c, s, a + b) == Exec(c, Exec(c, s, a), b)
    decreases |b|
  {
    if |b| == 0 {
      assert a + b == a;
    } else {
      ExecConcat(c, s, a, b[..|b| - 1]);
      assert (a + b)[..|a + b| - 1] == a + b[..|b| - 1];
    }
  }

  /** Every delivery of the message in flight is still inside the reclaim window of its claim. */
  predicate Timely(c: Config, s: State, id: Uuid) {
    forall j :: j in s.jobs && s.jobs[j].id == id ==> s.now <= s.jobs[j].claimedAt + c.window
  }

  /** The timing assumption on _reclaimAfter, held for one message in every state of the run. */
  predicate TimelyRun(c: Config, start: Time, steps: seq<Step>, id: Uuid) {
    |steps| == 0 || (TimelyRun(c, start, steps[..|steps| - 1], id) && Timely(c, Run(c, start, steps), id))
  }
}
