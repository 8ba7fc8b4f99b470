/**
 The bounded worker pool: a FIFO channel of jobs, workers that take from its
 head, and a Stop that closes it and waits for every worker to leave.
 */
module WorkerPool {
  /** A pool as a value. The last three fields record its history. */
  datatype PoolState<J> = PoolState(
    capacity: nat,
    workers: nat,
    queue: seq<J>,
    running: seq<J>,
    closed: bool,
    accepted: seq<J>,
    started: seq<J>,
    finished: seq<J>)

  datatype PoolStep<J> = Submit(job: J) | Start | Finish(i: nat, failed: bool) | Close

  function New<J>(workers: nat, queueSize: nat): PoolState<J> {
    PoolState(queueSize, workers, [], [], false, [], [], [])
  }

  /** Accepted exactly when the channel has room. */
  predicate HasRoom<J>(s: PoolState<J>) {
    |s.queue| < s.capacity
  }

  predicate CanStart<J>(s: PoolState<J>) {
    s.queue != [] && |s.running| < s.workers
  }

  function Accept<J>(s: PoolState<J>, job: J): PoolState<J> {
    s.(queue := s.queue + [job], accepted := s.accepted + [job])
  }

  function Take<J>(s: PoolState<J>): PoolState<J>
    requires CanStart(s)
  {
    s.(queue := s.queue[1..], running := s.running + [s.queue[0]], started := s.started + [s.queue[0]])
  }

  function Done<J>(s: PoolState<J>, i: nat): PoolState<J>
    requires i < |s.running|
  {
    s.(running := s.running[..i] + s.running[i + 1..], finished := s.finished + [s.running[i]])
  }

  /** One step; a step whose guard is false changes nothing. Whether a job fails changes nothing either. */
  function Apply<J>(s: PoolState<J>, st: PoolStep<J>): PoolState<J> {
    match st
    case Submit(job) => if !s.closed && HasRoom(s) then Accept(s, job) else s
    case Start => if CanStart(s) then Take(s) else s
    case Finish(i, _) => if i < |s.running| then Done(s, i) else s
    case Close => s.(closed := true)
  }

  function Exec<J>(s: PoolState<J>, steps: seq<PoolStep<J>>): PoolState<J> {
    if |steps| == 0 then s else Apply(Exec(s, steps[..|steps| - 1]), steps[|steps| - 1])
  }

  /** Nothing is lost or run twice, jobs start in acceptance order, and both bounds hold. */
  ghost predicate Conserved<J>(s: PoolState<J>) {
    && |s.queue| <= s.capacity
    && |s.running| <= s.workers
    && s.accepted == s.started + s.queue
    && multiset(s.started) == multiset(s.running) + multiset(s.finished)
  }

  lemma ConservedStep<J>(s: PoolState<J>, st: PoolStep<J>)
    requires Conserved(s)
    ensures Conserved(Apply(s, st))
  {
    match st
    case Submit(job) =>
      assert s.started + (s.queue + [job]) == (s.started + s.queue) + [job];
    case Start =>
      if CanStart(s) {
        assert (s.started + [s.queue[0]]) + s.queue[1..] == s.started + s.queue;
      }
    case Finish(i, _) =>
      if i < |s.running| {
        assert s.running == s.running[..i] + [s.running[i]] + s.running[i + 1..];
      }
    case Close =>
  }

  /** Pool conservation in every reachable state: accepted = queued + running + executed. */
  lemma {:induction false} PoolConservation<J>(workers: nat, queueSize: nat, steps: seq<PoolStep<J>>)
    ensures var s := Exec(New(workers, queueSize), steps);
            && Conserved(s)
            && |s.accepted| == |s.queue| + |s.running| + |s.finished|
            && multiset(s.accepted) == multiset(s.queue) + multiset(s.running) + multiset(s.finished)
            && s.started <= s.accepted
            && s.capacity == queueSize && s.workers == workers
  {
    if |steps| > 0 {
      PoolConservation(workers, queueSize, steps[..|steps| - 1]);
      ConservedStep(Exec(New(workers, queueSize), steps[..|steps| - 1]), steps[|steps| - 1]);
    }
    Totals(Exec(New(workers, queueSize), steps));
  }

  lemma Totals<J>(s: PoolState<J>)
    requires Conserved(s)
    ensures |s.accepted| == |s.queue| + |s.running| + |s.finished|
    ensures multiset(s.accepted) == multiset(s.queue) + multiset(s.running) + multiset(s.finished)
  {
    assert |multiset(s.started)| == |multiset(s.running)| + |multiset(s.finished)|;
  }

  /** Closing only closes; from then on nothing is accepted. */
  lemma CloseOnlyCloses<J>(s: PoolState<J>, job: J)
    ensures Apply(s, Close) == s.(closed := true)
    ensures Apply(Apply(s, Close), PoolStep.Submit(job)) == Apply(s, Close)
  {
  }

  // --- Drain ------------------------------------------------------------------

  function Work<J>(s: PoolState<J>): nat {
    2 * |s.queue| + |s.running|
  }

  /** Nothing is left for any worker to do. */
  predicate Quiet<J>(s: PoolState<J>) {
    !CanStart(s) && s.running == []
  }

  /**
   After Close every step a worker takes uses up work, whatever the job returned, nothing else
   changes the amount, and a worker can step until the pool is quiet: the drain cannot run on or stall.
   */
  lemma DrainProgress<J>(s: PoolState<J>, st: PoolStep<J>)
    requires s.closed
    ensures Apply(s, st).closed && Apply(s, st).accepted == s.accepted
    ensures Apply(s, st) != s ==> Work(Apply(s, st)) < Work(s)
    ensures !Quiet(s) ==> Apply(s, Start) != s || Apply(s, Finish(0, false)) != s
  {
    if CanStart(s) {
      assert |Apply(s, Start).queue| < |s.queue|;
    } else if s.running != [] {
      assert |Apply(s, Finish(0, false)).running| < |s.running|;
    }
  }

  /** However the workers interleave, a drain that has gone quiet has run every accepted job once, given a worker. */
  lemma {:induction false} DrainedIff<J>(s: PoolState<J>, steps: seq<PoolStep<J>>)
    requires Conserved(s) && s.closed && Quiet(Exec(s, steps))
    ensures multiset(Exec(s, steps).finished) == multiset(s.accepted) <==> s.workers > 0 || s.queue == []
  {
    ClosedRun(s, steps);
    var s' := Exec(s, steps);
    Totals(s');
    if s.workers > 0 {
      assert s'.queue == [];
    } else {
      assert s'.queue == s.queue;
      if s.queue != [] {
        assert |multiset(s'.finished)| < |multiset(s.accepted)|;
      }
    }
  }

  lemma {:induction false} ClosedRun<J>(s: PoolState<J>, steps: seq<PoolStep<J>>)
    requires Conserved(s) && s.closed
    ensures var s' := Exec(s, steps);
            && Conserved(s') && s'.closed && s'.accepted == s.accepted && s'.workers == s.workers
            && (s.workers == 0 ==> s'.queue == s.queue)
  {
    if |steps| > 0 {
      ClosedRun(s, steps[..|steps| - 1]);
      ConservedStep(Exec(s, steps[..|steps| - 1]), steps[|steps| - 1]);
    }
  }

  class Pool<J> {
    const capacity: nat
    const workers: nat
    var queue: seq<J>
    var running: seq<J>
    var closed: bool
    var executed: nat
    ghost var accepted: seq<J>
    ghost var started: seq<J>
    ghost var finished: seq<J>

    ghost function State(): PoolState<J>
      reads this
    {
      PoolState(capacity, workers, queue, running, closed, accepted, started, finished)
    }

    ghost predicate Valid()
      reads this
    {
      Conserved(State()) && executed == |finished|
    }

    constructor (workers: nat, queueSize: nat)
      ensures Valid() && State() == New(workers, queueSize)
    {
      this.capacity, this.workers := queueSize, workers;
      queue, running, closed, executed := [], [], false, 0;
      accepted, started, finished := [], [], [];
    }

    /** False is ErrPoolFull. Sending on a closed channel panics. */
    method Submit(job: J) returns (ok: bool)
      requires Valid() && !closed
      modifies this
      ensures Valid() && ok == HasRoom(old(State()))
      ensures State() == if ok then Accept(old(State()), job) else old(State())
    {
      ConservedStep(State(), PoolStep.Submit(job));
      if |queue| < capacity {
        queue := queue + [job];
        accepted := accepted + [job];
        ok := true;
      } else {
        ok := false;
      }
    }

    /** A worker of `run` receives the next job. */
    method StartNext()
      requires Valid() && CanStart(State())
      modifies this
      ensures Valid() && State() == Take(old(State()))
    {
      ConservedStep(State(), PoolStep.Start);
      var job := queue[0];
      queue := queue[1..];
      running := running + [job];
      started := started + [job];
    }

    /** The job on some worker returns, with or without an error; the worker counts it and loops. */
    method FinishOne(i: nat, failed: bool)
      requires Valid() && i < |running|
      modifies this
      ensures Valid() && State() == Done(old(State()), i)
    {
      ConservedStep(State(), PoolStep.Finish(i, failed));
      finished := finished + [running[i]];
      running := running[..i] + running[i + 1..];
      executed := executed + 1;
    }

    /**
     Close the channel and wait for the workers, which take and finish jobs in any order until there
     is nothing left to receive. With at least one worker every accepted job has then run exactly
     once, and the result is how many of them ran since entry.
     */
    method Stop() returns (drained: nat)
      requires Valid() && !closed
      modifies this
      ensures Valid() && closed && Quiet(State())
      ensures accepted == old(accepted)
      ensures workers > 0 || old(queue) == [] ==>
                && multiset(finished) == multiset(accepted)
                && drained == |accepted| - old(executed)
      ensures workers == 0 ==> drained == 0 && queue == old(queue)
    {
      var before := executed;
      closed := true;
      while !(running == [] && (queue == [] || workers == 0))
        invariant Valid() && closed && accepted == old(accepted) && before <= executed
        invariant workers == 0 ==> queue == old(queue) && executed == before
        decreases Work(State())
      {
        if
        case queue != [] && |running| < workers =>
          StartNext();
        case running != [] =>
          var i: nat, failed: bool := *, *;
          FinishOne(if i < |running| then i else 0, failed);
      }
      Totals(State());
      drained := executed - before;
    }
  }
}
