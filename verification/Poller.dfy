/** The poller: it claims a batch, feeds it to the worker pool, and each job delivers one message. */
module OutboxPoller {
  import opened Wrappers
  import opened OutboxTable
  import opened PostgresOutbox
  import opened WorkerPool

  // time.Duration.
  newtype int64 = n: int | -0x8000_0000_0000_0000 <= n < 0x8000_0000_0000_0000

  lemma {:induction false} Pow2Grows(a: nat, b: nat)
    requires a <= b
    ensures Pow2(a) <= Pow2(b)
  {
    if a < b {
      Pow2Grows(a, b - 1);
    }
  }

  /** A longer history of failures never shortens the delay. */
  lemma DelayMonotone(interval: Interval, a: nat, b: nat)
    requires a <= b
    ensures Delay(interval, a) <= Delay(interval, b)
  {
    Pow2Grows(a, b);
    assert interval * Pow2(a) <= interval * Pow2(b);
  }

  /** The schedule itself: the interval, then twice the delay before, never more than five minutes. */
  lemma DelayDoubles(interval: Interval, n: nat)
    ensures Delay(interval, 0) == if interval < 300_000_000_000 then interval else 300_000_000_000
    ensures var twice := 2 * Delay(interval, n);
            Delay(interval, n + 1) == if twice < 300_000_000_000 then twice else 300_000_000_000
  {
    assert interval * Pow2(n + 1) == 2 * (interval * Pow2(n));
  }

  // Once the cap is reached it stays reached.
  lemma Capped(interval: Interval, a: nat, b: nat)
    requires a <= b && interval * Pow2(a) >= MAX_BACKOFF
    ensures Delay(interval, b) == MAX_BACKOFF
  {
    DelayMonotone(interval, a, b);
  }

  class Poller {
    const store: PostgresOutboxStore
    const pool: Pool<OutboxMessage>
    const interval: int64
    const batchSize: int
    const maxAttempts: int

    ghost predicate Valid()
      reads this, pool
    {
      interval > 0 && pool.Valid()
    }

    constructor (store: PostgresOutboxStore, pool: Pool<OutboxMessage>, interval: int64, batchSize: int,
                 maxAttempts: int)
      requires interval > 0 && pool.Valid()
      ensures Valid() && this.store == store && this.pool == pool
      ensures this.interval == interval && this.batchSize == batchSize && this.maxAttempts == maxAttempts
    {
      this.store, this.pool := store, pool;
      this.interval, this.batchSize, this.maxAttempts := interval, batchSize, maxAttempts;
    }

    /** The doubling loop returns min(interval * 2^attempts, cap), and no product overflows 64 bits. */
    method Backoff(attempts: int) returns (d: int64)
      requires interval > 0
      ensures d as int == Delay(interval as int, if attempts < 0 then 0 else attempts)
    {
      var cap: int64 := MAX_BACKOFF as int64;
      d := interval;
      var i := 0;
      while i < attempts
        invariant 0 <= i && (attempts >= 0 ==> i <= attempts) && (attempts < 0 ==> i == 0)
        invariant d as int == interval as int * Pow2(i) && d > 0
      {
        if d >= cap {
          Capped(interval as int, i, attempts);
          return cap;
        }
        assert interval as int * Pow2(i + 1) == 2 * (interval as int * Pow2(i));
        d := d * 2;
        i := i + 1;
      }
      d := if d < cap then d else cap;
    }

    /**
     One delivery, for a Publish that ends with `err` and a mark statement that ends with `call`.
     The job fails unless both succeed.
     */
    method Deliver(m: OutboxMessage, err: Option<string>, clientNow: Time, call: Call) returns (ok: bool)
      requires Valid()
      modifies store`rows
      ensures var mark := Verdict(m.attempts, err, maxAttempts, interval as int, clientNow);
              store.rows == if call.Unsent? then old(store.rows)
              else MarkTable(old(store.rows), m.msg.id, mark, store.clock)
      ensures ok <==> err.None? && call.Done?
    {
      if err.None? {
        ok := store.MarkProcessed(m.msg.id, clientNow, call);
        return;
      }
      var attempts := m.attempts + 1;
      if attempts >= maxAttempts {
        var _ := store.MarkExhausted(m.msg.id, err.value, call);
        return false;
      }
      var retryAfter := Backoff(attempts);
      var _ := store.MarkFailed(m.msg.id, err.value, retryAfter as int, call);
      ok := false;
    }

    /**
     One tick, with the workers standing still: the claimed rows are locked and nothing else changes, a
     prefix of the claimed batch enters the pool in order, each message once, and it is the longest the
     pool has room for. What does not fit is left to the reclaim window.
     */
    method Poll(contended: set<Uuid>, call: Call, badRow: Option<nat>)
      returns (ghost picked: seq<Uuid>, ghost submitted: seq<OutboxMessage>)
      requires Valid() && !pool.closed
      modifies store`rows, pool
      ensures Valid() && !pool.closed
      ensures call.Unsent? || batchSize < 0 ==> picked == []
      ensures !call.Unsent? && batchSize >= 0 ==>
                OldestFirst(old(store.rows),
                            EligibleIds(old(store.rows), store.clock, 300_000_000_000, maxAttempts) - contended,
                            batchSize, Ids(picked))
      ensures store.rows == Locked(old(store.rows), Ids(picked), store.clock)
      ensures pool.queue == old(pool.queue) + submitted && pool.accepted == old(pool.accepted) + submitted
      ensures pool.running == old(pool.running) && pool.finished == old(pool.finished)
      ensures |submitted| <= |picked| && Returns(old(store.rows), picked[..|submitted|], submitted)
      ensures !call.Done? || !Scans(badRow, |picked|) ==> submitted == []
      ensures call.Done? && Scans(badRow, |picked|) && |submitted| < |picked| ==> |pool.queue| == pool.capacity
    {
      var r, claimed := store.ClaimBatch(batchSize, RECLAIM_AFTER, maxAttempts, contended, call, badRow);
      picked := claimed;
      hide OldestFirst, EligibleIds;
      assert picked == [] ==> Locked(old(store.rows), Ids(picked), store.clock) == old(store.rows);
      submitted := [];
      if r.Ok? {
        submitted := SubmitBatch(r.value);
      }
    }

    /** Submit in order, stopping at the first refusal. */
    method SubmitBatch(msgs: seq<OutboxMessage>) returns (ghost submitted: seq<OutboxMessage>)
      requires Valid() && !pool.closed
      modifies pool
      ensures Valid() && !pool.closed
      ensures submitted <= msgs
      ensures pool.queue == old(pool.queue) + submitted && pool.accepted == old(pool.accepted) + submitted
      ensures pool.running == old(pool.running) && pool.finished == old(pool.finished)
      ensures |submitted| < |msgs| ==> |pool.queue| == pool.capacity
    {
      submitted := [];
      for i := 0 to |msgs|
        invariant Valid() && !pool.closed && submitted == msgs[..i]
        invariant pool.queue == old(pool.queue) + submitted && pool.accepted == old(pool.accepted) + submitted
        invariant pool.running == old(pool.running) && pool.finished == old(pool.finished)
      {
        var accepted := pool.Submit(msgs[i]);
        if !accepted {
          return;
        }
        submitted := submitted + [msgs[i]];
      }
    }
  }
}
