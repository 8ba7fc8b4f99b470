/**
 The `outbox_messages` table and what one statement of the store does to it.
 A statement is atomic and reads one database clock; these functions are what
 the methods of PostgresOutboxStore are proved against and what the steps of
 OutboxProtocol apply.
 */
module OutboxTable {
  import opened Wrappers

  type Uuid = nat
  // Nanoseconds, as time.Duration counts them.
  type Time = int

  datatype Message = Message(id: Uuid, aggregateId: Uuid, eventType: string, payload: string, createdAt: Time)

  datatype Row = Row(
    msg: Message,
    processedAt: Option<Time>,
    attempts: nat,
    lastError: Option<string>,
    lockedAt: Option<Time>,
    nextAttemptAt: Time)

  // Keyed by the primary key.
  type Table = map<Uuid, Row>

  function Ids(s: seq<Uuid>): set<Uuid> {
    set id | id in s
  }

  function Inserted(msg: Message, now: Time): Row {
    Row(msg, None, 0, None, None, now)
  }

  /** The WHERE clause of the claim query. */
  predicate Eligible(r: Row, now: Time, window: Time, maxAttempts: int) {
    && r.processedAt.None?
    && r.attempts < maxAttempts
    && r.nextAttemptAt <= now
    && (r.lockedAt.None? || r.lockedAt.value < now - window)
  }

  function EligibleIds(t: Table, now: Time, window: Time, maxAttempts: int): set<Uuid> {
    set id | id in t && Eligible(t[id], now, window, maxAttempts)
  }

  function Locked(t: Table, ids: set<Uuid>, now: Time): Table {
    map id | id in t :: if id in ids then t[id].(lockedAt := Some(now)) else t[id]
  }

  /** ORDER BY created_at LIMIT limit over the candidates; ties may fall either way. */
  ghost predicate OldestFirst(t: Table, candidates: set<Uuid>, limit: nat, picked: set<Uuid>)
    requires candidates <= t.Keys
  {
    && picked <= candidates
    && |picked| == (if limit < |candidates| then limit else |candidates|)
    && forall a, b :: a in picked && b in candidates - picked ==> t[a].msg.createdAt <= t[b].msg.createdAt
  }

  /** The three ways a delivery reports back. */
  datatype Mark = Processed(at: Time) | Failed(reason: string, retryAfter: Time) | Exhausted(reason: string)

  function Marked(r: Row, m: Mark, now: Time): Row {
    match m
    case Processed(at) => r.(processedAt := Some(at))
    case Failed(reason, retryAfter) =>
      r.(attempts := r.attempts + 1, lastError := Some(reason), lockedAt := None, nextAttemptAt := now + retryAfter)
    case Exhausted(reason) =>
      r.(attempts := r.attempts + 1, lastError := Some(reason), lockedAt := None, processedAt := Some(now))
  }

  /** UPDATE ... WHERE id = id: an absent id changes nothing. */
  function MarkTable(t: Table, id: Uuid, m: Mark, now: Time): Table {
    if id in t then t[id := Marked(t[id], m, now)] else t
  }

  // time.NewTicker refuses any other interval.
  type Interval = d: Time | 0 < d witness 1

  // The cap on the retry delay and the reclaim window: five minutes.
  const MAX_BACKOFF: Time := 300_000_000_000
  const RECLAIM_AFTER: Time := 300_000_000_000

  function Pow2(n: nat): (p: nat)
    ensures p >= 1
  {
    if n == 0 then 1 else 2 * Pow2(n - 1)
  }

  /** interval * 2^attempts, capped. */
  function Delay(interval: Interval, attempts: nat): (d: Time)
    ensures 0 < d <= MAX_BACKOFF
  {
    var d := interval * Pow2(attempts);
    if d < MAX_BACKOFF then d else MAX_BACKOFF
  }

  /** What `deliver` reports for a publish that ended with `err`, given the attempts it saw when claiming. */
  function Verdict(snapshot: nat, err: Option<string>, maxAttempts: int, interval: Interval, clientNow: Time): Mark {
    if err.None? then Processed(clientNow)
    else if snapshot + 1 >= maxAttempts then Exhausted(err.value)
    else Failed(err.value, Delay(interval, snapshot + 1))
  }
}
