/** The store of the outbox: every method is one SQL statement against the table. */
module PostgresOutbox {
  import opened Wrappers
  import opened OutboxTable

  /** How a statement can end: applied, never applied, or applied with the reply lost. Only Done reports success. */
  datatype Call = Done | Unsent | ReplyLost

  /** What a claim hands to the poller. */
  datatype OutboxMessage = OutboxMessage(msg: Message, attempts: nat, lastError: Option<string>)

  /** Row number `badRow`, if any, will not scan: is it beyond the n rows there are? */
  predicate Scans(badRow: Option<nat>, n: nat) {
    badRow.None? || badRow.value >= n
  }

  /** `msgs` are the rows named by `ids`, each once, as they stood in t. */
  ghost predicate Returns(t: Table, ids: seq<Uuid>, msgs: seq<OutboxMessage>) {
    && |msgs| == |ids|
    && (forall i, k :: 0 <= i < k < |ids| ==> ids[i] != ids[k])
    && (forall i :: 0 <= i < |ids| ==> ids[i] in t)
    && (forall i :: 0 <= i < |ids| ==>
                      && msgs[i].msg == t[ids[i]].msg
                      && msgs[i].attempts == t[ids[i]].attempts
                      && msgs[i].lastError == t[ids[i]].lastError)
  }

  /** The candidates split into those picked so far and those left, none of which is older. */
  ghost predicate OldestSplit(t: Table, candidates: set<Uuid>, picked: seq<Uuid>, rest: set<Uuid>) {
    && candidates <= t.Keys
    && rest <= candidates && Ids(picked) == candidates - rest
    && (forall i, k :: 0 <= i < k < |picked| ==> picked[i] != picked[k])
    && |picked| + |rest| == |candidates|
    && forall a, b :: a in Ids(picked) && b in rest ==> t[a].msg.createdAt <= t[b].msg.createdAt
  }

  lemma OldestSplitStep(t: Table, candidates: set<Uuid>, picked: seq<Uuid>, rest: set<Uuid>, id: Uuid)
    requires OldestSplit(t, candidates, picked, rest) && id in rest
    requires forall other :: other in rest ==> t[id].msg.createdAt <= t[other].msg.createdAt
    ensures OldestSplit(t, candidates, picked + [id], rest - {id})
  {
    assert forall i :: 0 <= i < |picked| ==> picked[i] in Ids(picked);
    assert Ids(picked + [id]) == Ids(picked) + {id};
  }

  lemma OldestSplitEnd(t: Table, candidates: set<Uuid>, limit: nat, picked: seq<Uuid>, rest: set<Uuid>)
    requires OldestSplit(t, candidates, picked, rest) && |picked| <= limit && (|picked| == limit || rest == {})
    ensures OldestFirst(t, candidates, limit, Ids(picked)) && |picked| == |Ids(picked)|
  {
    assert candidates == Ids(picked) + rest;
    assert candidates - Ids(picked) == rest;
  }

  /**
   Row by row: at most limit rows are picked, each free to be claimed and not locked by others, and such a row
   is left behind only by a full batch of rows that are no younger.
   */
  ghost predicate TakesOldest(t: Table, now: Time, limit: nat, window: Time, maxAttempts: int, contended: set<Uuid>,
                              picked: seq<Uuid>)
  {
    && |picked| <= limit
    && (forall id :: id in picked ==> id in t && Eligible(t[id], now, window, maxAttempts) && id !in contended)
    && (forall id :: id in t && Eligible(t[id], now, window, maxAttempts) && id !in contended && id !in picked ==>
                       |picked| == limit && forall p :: p in picked ==> t[p].msg.createdAt <= t[id].msg.createdAt)
  }

  lemma OldestTaken(t: Table, now: Time, limit: nat, window: Time, maxAttempts: int, contended: set<Uuid>,
                    picked: seq<Uuid>)
    requires OldestFirst(t, EligibleIds(t, now, window, maxAttempts) - contended, limit, Ids(picked))
    requires |picked| == |Ids(picked)|
    ensures TakesOldest(t, now, limit, window, maxAttempts, contended, picked)
  {
    var candidates, ids := EligibleIds(t, now, window, maxAttempts) - contended, Ids(picked);
    forall id | id in picked
      ensures id in candidates
    {
      assert id in ids;
    }
    forall id | id in t && Eligible(t[id], now, window, maxAttempts) && id !in contended && id !in picked
      ensures |picked| == limit && forall p :: p in picked ==> t[p].msg.createdAt <= t[id].msg.createdAt
    {
      assert id in candidates - ids;
      if |candidates| <= limit {
        SameSize(ids, candidates);
      }
      assert forall p :: p in picked ==> p in ids;
    }
  }

  lemma SameSize(a: set<Uuid>, b: set<Uuid>)
    requires a <= b && |a| == |b|
    ensures a == b
  {
    assert |b - a| == |b| - |a|;
  }

  class PostgresOutboxStore {
    var rows: Table
    var clock: Time

    constructor (start: Time)
      ensures rows == map[] && clock == start
    {
      rows, clock := map[], start;
    }

    /** The insert inside the caller's transaction, as it stands once that commits. */
    method SaveTx(msg: Message, call: Call) returns (r: Result<(), string>)
      modifies `rows
      ensures r.Ok? <==> call.Done? && msg.id !in old(rows)
      ensures rows == if call.Unsent? || msg.id in old(rows) then old(rows)
                      else old(rows)[msg.id := Inserted(msg, clock)]
    {
      if call.Unsent? {
        return Err("unsent");
      }
      if msg.id in rows {
        return Err("duplicate key");
      }
      rows := rows[msg.id := Row(msg, None, 0, None, None, clock)];
      r := if call.Done? then Ok(()) else Err("reply lost");
    }

    /** ORDER BY created_at over the candidates: one that none precedes. */
    method Oldest(ids: set<Uuid>) returns (id: Uuid)
      requires ids != {} && ids <= rows.Keys
      ensures id in ids && forall other :: other in ids ==> rows[id].msg.createdAt <= rows[other].msg.createdAt
    {
      id :| id in ids;
      var rest := ids - {id};
      while rest != {}
        invariant id in ids && rest <= ids
        invariant forall other :: other in ids - rest ==> rows[id].msg.createdAt <= rows[other].msg.createdAt
        decreases rest
      {
        var other :| other in rest;
        if rows[other].msg.createdAt < rows[id].msg.createdAt {
          id := other;
        }
        rest := rest - {other};
      }
    }

    /** The inner SELECT: eligible rows no other transaction has locked, oldest first, at most limit. */
    method Select(limit: nat, reclaimAfter: Time, maxAttempts: int, contended: set<Uuid>) returns (picked: seq<Uuid>)
      ensures var candidates := EligibleIds(rows, clock, reclaimAfter, maxAttempts) - contended;
              OldestFirst(rows, candidates, limit, Ids(picked))
      ensures |picked| == |Ids(picked)|
      ensures forall i, k :: 0 <= i < k < |picked| ==> picked[i] != picked[k]
      ensures TakesOldest(rows, clock, limit, reclaimAfter, maxAttempts, contended, picked)
    {
      var candidates := EligibleIds(rows, clock, reclaimAfter, maxAttempts) - contended;
      var rest := candidates;
      picked := [];
      while |picked| < limit && rest != {}
        invariant |picked| <= limit && OldestSplit(rows, candidates, picked, rest)
        decreases rest
      {
        var id := Oldest(rest);
        OldestSplitStep(rows, candidates, picked, rest, id);
        picked := picked + [id];
        rest := rest - {id};
      }
      OldestSplitEnd(rows, candidates, limit, picked, rest);
      OldestTaken(rows, clock, limit, reclaimAfter, maxAttempts, contended, picked);
    }

    /**
     UPDATE ... RETURNING, then the scan of the returned rows. A negative limit is refused by the
     database. A lost reply or a row that will not scan loses the whole batch, but keeps its locks.
     */
    method ClaimBatch(limit: int, reclaimAfter: Time, maxAttempts: int,
                      contended: set<Uuid>, call: Call, badRow: Option<nat>)
      returns (r: Result<seq<OutboxMessage>, string>, ghost picked: seq<Uuid>)
      modifies `rows
      ensures call.Unsent? || limit < 0 ==> r.Err? && rows == old(rows) && picked == []
      ensures !call.Unsent? && limit >= 0 ==>
                && OldestFirst(old(rows), EligibleIds(old(rows), clock, reclaimAfter, maxAttempts) - contended,
                               limit, Ids(picked))
                && TakesOldest(old(rows), clock, limit, reclaimAfter, maxAttempts, contended, picked)
                && rows == Locked(old(rows), Ids(picked), clock)
      ensures r.Ok? <==> call.Done? && limit >= 0 && Scans(badRow, |picked|)
      ensures r.Ok? ==> Returns(old(rows), picked, r.value)
      ensures r.Ok? ==> forall i :: 0 <= i < |r.value| ==>
                                      && picked[i] in old(rows)
                                      && r.value[i].msg == old(rows)[picked[i]].msg
                                      && r.value[i].attempts == old(rows)[picked[i]].attempts
                                      && r.value[i].lastError == old(rows)[picked[i]].lastError
    {
      picked := [];
      if call.Unsent? || limit < 0 {
        return Err("query"), [];
      }
      var ids := Select(limit, reclaimAfter, maxAttempts, contended);
      picked := ids;
      var before := rows;
      forall id | id in ids
        ensures id in before
      {
        assert id in Ids(ids);
      }
      rows := Locked(rows, Ids(ids), clock);
      if call.ReplyLost? {
        return Err("reply lost"), picked;
      }
      var msgs: seq<OutboxMessage> := [];
      for i := 0 to |ids|
        invariant |msgs| == i && (badRow.Some? ==> i <= badRow.value)
        invariant forall k :: 0 <= k < i ==>
                                var row := before[ids[k]];
                                msgs[k] == OutboxMessage(row.msg, row.attempts, row.lastError)
      {
        if badRow == Some(i) {
          return Err("scan"), picked;
        }
        var row := before[ids[i]];
        msgs := msgs + [OutboxMessage(row.msg, row.attempts, row.lastError)];
      }
      r := Ok(msgs);
    }

    method MarkProcessed(id: Uuid, clientNow: Time, call: Call) returns (ok: bool)
      modifies `rows
      ensures ok == call.Done?
      ensures rows == if call.Unsent? then old(rows) else MarkTable(old(rows), id, Processed(clientNow), clock)
    {
      if !call.Unsent? && id in rows {
        rows := rows[id := rows[id].(processedAt := Some(clientNow))];
      }
      ok := call.Done?;
    }

    method MarkFailed(id: Uuid, reason: string, retryAfter: Time, call: Call) returns (ok: bool)
      modifies `rows
      ensures ok == call.Done?
      ensures rows == if call.Unsent? then old(rows) else MarkTable(old(rows), id, Failed(reason, retryAfter), clock)
    {
      if !call.Unsent? && id in rows {
        var r := rows[id];
        var counted := r.(attempts := r.attempts + 1, lastError := Some(reason));
        rows := rows[id := counted.(lockedAt := None, nextAttemptAt := clock + retryAfter)];
      }
      ok := call.Done?;
    }

    method MarkExhausted(id: Uuid, reason: string, call: Call) returns (ok: bool)
      modifies `rows
      ensures ok == call.Done?
      ensures rows == if call.Unsent? then old(rows) else MarkTable(old(rows), id, Exhausted(reason), clock)
    {
      if !call.Unsent? && id in rows {
        var r := rows[id];
        var counted := r.(attempts := r.attempts + 1, lastError := Some(reason));
        rows := rows[id := counted.(lockedAt := None, processedAt := Some(clock))];
      }
      ok := call.Done?;
    }
  }
}
