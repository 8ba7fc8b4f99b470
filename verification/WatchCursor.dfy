/** The stream of customer events: poll the log, send what is past the cursor, move the cursor. */
module WatchCursor {
  import opened Wrappers
  import opened TimestampKey
  import opened EventLog

  // The zero time.Time.
  const ZERO := Utc(1, 1, 1, 0, 0, 0, 0)

  datatype Stream = Stream(since: Utc, sent: seq<LogEvent>, open: bool)

  const OPENED := Stream(ZERO, [], true)

  /** Send the batch in order; the first failure ends the stream. */
  function AfterSend(w: Stream, batch: seq<LogEvent>, failsAt: Option<nat>): Stream {
    var n := if failsAt.Some? && failsAt.value < |batch| then failsAt.value else |batch|;
    Stream(if n == 0 then w.since else batch[n - 1].occurredAt, w.sent + batch[..n], n == |batch|)
  }

  class Watch {
    const aggregate: string
    var since: Utc
    ghost var sent: seq<LogEvent>
    var open: bool

    ghost function State(): Stream
      reads this
    {
      Stream(since, sent, open)
    }

    constructor (aggregate: string)
      ensures State() == OPENED && this.aggregate == aggregate
    {
      this.aggregate, since, sent, open := aggregate, ZERO, [], true;
    }

    /** One tick of the loop. */
    method Tick(store: SqliteStore, down: bool, badRow: Option<nat>, failsAt: Option<nat>)
      returns (ghost batch: seq<LogEvent>)
      requires open && store.Valid()
      modifies this
      ensures !down ==> IsFetch(store.log, aggregate, old(since), batch)
      ensures State() == if down || !Parses(badRow, batch) then old(State()).(open := false)
                         else AfterSend(old(State()), batch, failsAt)
    {
      hide KeyLess, Less, Key, ForAggregate;
      var r, found := store.FetchSince(aggregate, since, down, badRow);
      batch := found;
      if r.Err? {
        open := false;
        return;
      }
      var events := r.value;
      for i := 0 to |events|
        invariant open && sent == old(sent) + events[..i]
        invariant since == if i == 0 then old(since) else events[i - 1].occurredAt
        invariant failsAt.Some? ==> i <= failsAt.value
      {
        if failsAt == Some(i) {
          open := false;
          return;
        }
        sent := sent + [events[i]];
        since := events[i].occurredAt;
      }
    }
  }

  // --- Runs -----------------------------------------------------------------------

  datatype State = State(log: seq<LogEvent>, w: Stream)

  datatype Step = Append(e: LogEvent) | Poll(batch: seq<LogEvent>, failsAt: Option<nat>) | FetchFails

  ghost function Apply(aggregate: string, s: State, st: Step): State {
    match st
    case Append(e) => if UsedId(s.log, e.id) then s else s.(log := s.log + [e])
    case Poll(batch, failsAt) =>
      if s.w.open && IsFetch(s.log, aggregate, s.w.since, batch) then s.(w := AfterSend(s.w, batch, failsAt)) else s
    case FetchFails => s.(w := s.w.(open := false))
  }

  ghost function Exec(aggregate: string, s: State, steps: seq<Step>): State {
    if |steps| == 0 then s else Apply(aggregate, Exec(aggregate, s, steps[..|steps| - 1]), steps[|steps| - 1])
  }

  const START := State([], OPENED)

  /** The steps are what the contracts of the store and of the loop promise. */
  lemma CallsAreSteps(aggregate: string, s: State, e: LogEvent, batch: seq<LogEvent>, failsAt: Option<nat>)
    ensures Apply(aggregate, s, Append(e)) ==
            if forall x :: x in s.log ==> x.id != e.id then s.(log := s.log + [e]) else s
    ensures s.w.open && IsFetch(s.log, aggregate, s.w.since, batch) ==>
              Apply(aggregate, s, Poll(batch, failsAt)) == s.(w := AfterSend(s.w, batch, failsAt))
    ensures Apply(aggregate, s, FetchFails) == s.(w := s.w.(open := false))
  {
    hide KeyLess;
  }

  /** Nothing sent lies past the cursor, and nothing was sent twice. */
  ghost predicate Inv(s: State) {
    && DistinctIds(s.log) && DistinctIds(s.w.sent)
    && (forall e :: e in s.w.sent ==> e in s.log && !After(e, s.w.since))
  }

  // What is past a later cursor is past an earlier one.
  lemma CursorMoves(e: LogEvent, since: Utc, next: LogEvent)
    requires After(next, since) && After(e, next.occurredAt)
    ensures After(e, since)
  {
    KeyLessTransitive(since, next.occurredAt, e.occurredAt);
  }

  lemma PollInv(aggregate: string, s: State, batch: seq<LogEvent>, failsAt: Option<nat>)
    requires Inv(s) && IsFetch(s.log, aggregate, s.w.since, batch)
    ensures Inv(s.(w := AfterSend(s.w, batch, failsAt)))
  {
    hide KeyLess;
    var w' := AfterSend(s.w, batch, failsAt);
    var n := |w'.sent| - |s.w.sent|;
    if n > 0 {
      var last := batch[n - 1];
      assert last in batch;
      KeyLessTotal(last.occurredAt, last.occurredAt);
      forall e | e in w'.sent
        ensures e in s.log && !After(e, w'.since)
      {
        if e in s.w.sent {
          if After(e, last.occurredAt) {
            CursorMoves(e, s.w.since, last);
          }
        } else {
          var i :| 0 <= i < n && batch[i] == e;
          assert i < n - 1 ==> NotAfter(batch[i], batch[n - 1]);
        }
      }
      SentDistinct(s, batch[..n]);
    } else {
      assert w'.sent == s.w.sent;
    }
  }

  lemma SentDistinct(s: State, more: seq<LogEvent>)
    requires Inv(s) && DistinctIds(more)
    requires forall e :: e in more ==> e in s.log && After(e, s.w.since)
    ensures DistinctIds(s.w.sent + more)
  {
    var all := s.w.sent + more;
    forall i, k | 0 <= i < k < |all|
      ensures all[i].id != all[k].id
    {
      if i < |s.w.sent| <= k {
        assert all[i] in s.w.sent && all[k] in more;
        if all[i].id == all[k].id {
          SameIdSame(s.log, all[i], all[k]);
        }
      }
    }
  }

  lemma InvStep(aggregate: string, s: State, st: Step)
    requires Inv(s)
    ensures Inv(Apply(aggregate, s, st))
  {
    match st
    case Poll(batch, failsAt) =>
      if s.w.open && IsFetch(s.log, aggregate, s.w.since, batch) {
        PollInv(aggregate, s, batch, failsAt);
      }
    case _ =>
  }

  /** However appends and polls interleave, and wherever sends fail, no logged event is sent twice. */
  lemma {:induction false} NeverSentTwice(aggregate: string, steps: seq<Step>)
    ensures Inv(Exec(aggregate, START, steps))
    ensures DistinctIds(Exec(aggregate, START, steps).w.sent)
  {
    if |steps| > 0 {
      NeverSentTwice(aggregate, steps[..|steps| - 1]);
      InvStep(aggregate, Exec(aggregate, START, steps[..|steps| - 1]), steps[|steps| - 1]);
    }
  }

  /** A watch on an aggregate is sent its events and no others, a watch on none is sent any. */
  lemma {:induction false} SentAreWatched(aggregate: string, steps: seq<Step>)
    ensures var s := Exec(aggregate, START, steps);
            forall e :: e in s.w.sent ==> e in s.log && (aggregate == "" || e.aggregateId == aggregate)
  {
    hide KeyLess;
    if |steps| > 0 {
      var s, st := Exec(aggregate, START, steps[..|steps| - 1]), steps[|steps| - 1];
      SentAreWatched(aggregate, steps[..|steps| - 1]);
      if st.Poll? && s.w.open && IsFetch(s.log, aggregate, s.w.since, st.batch) {
        assert forall e :: e in Apply(aggregate, s, st).w.sent ==> e in s.w.sent || e in st.batch;
      }
    }
  }

  /** A new stream starts before every time there is, except those of the zero time's own second. */
  lemma OpenedSeesAll(e: LogEvent)
    requires Valid(e.occurredAt) && e.occurredAt.year >= 1 && e.occurredAt.month >= 1 && e.occurredAt.day >= 1
    ensures After(e, OPENED.since) <==> e.occurredAt.(nanos := 0) != Utc(1, 1, 1, 0, 0, 0, 0)
  {
    var t, zero := e.occurredAt, Utc(1, 1, 1, 0, 0, 0, 0);
    LessTotal(Key(t), Key(t));
    if t != zero {
      KeyOrderIff(zero, t);
      ZeroTrimmed(9);
    }
  }

  // --- Skipped events -----------------------------------------------------------------

  // A poll whose sends all succeed sends a pending event exactly when its text sorts after the cursor's.
  lemma SentIff(aggregate: string, s: State, e: LogEvent, batch: seq<LogEvent>)
    requires Inv(s) && s.w.open && IsFetch(s.log, aggregate, s.w.since, batch)
    requires e in s.log && ForAggregate(e, aggregate) && e !in s.w.sent
    ensures e in Apply(aggregate, s, Poll(batch, None)).w.sent <==> After(e, s.w.since)
  {
    assert e in batch <==> After(e, s.w.since);
    assert batch[..|batch|] == batch;
  }

  /** An event the cursor has passed without sending it is never sent. */
  lemma {:induction false} SkippedForever(aggregate: string, s: State, more: seq<Step>, e: LogEvent)
    requires Inv(s) && e !in s.w.sent && !After(e, s.w.since)
    ensures var s' := Exec(aggregate, s, more); Inv(s') && e !in s'.w.sent && !After(e, s'.w.since)
  {
    hide KeyLess;
    if |more| > 0 {
      var before, st := more[..|more| - 1], more[|more| - 1];
      var s1 := Exec(aggregate, s, before);
      SkippedForever(aggregate, s, before, e);
      InvStep(aggregate, s1, st);
      if st.Poll? && s1.w.open && IsFetch(s1.log, aggregate, s1.w.since, st.batch) {
        var s2 := Apply(aggregate, s1, st);
        var n := |s2.w.sent| - |s1.w.sent|;
        if n > 0 {
          assert st.batch[n - 1] in st.batch;
          if After(e, s2.w.since) {
            CursorMoves(e, s1.w.since, st.batch[n - 1]);
          }
        }
      }
    }
  }

  /**
   An event that happened later than the cursor is passed over exactly when it falls in the cursor's own
   second and one of the two written fractions continues the other.
   */
  lemma LaterEventSkippedIff(s: State, e: LogEvent)
    requires Valid(s.w.since) && Valid(e.occurredAt) && Before(s.w.since, e.occurredAt)
    ensures !After(e, s.w.since) <==> SameSecond(s.w.since, e.occurredAt) && Nested(s.w.since, e.occurredAt)
  {
    KeyOrderIff(s.w.since, e.occurredAt);
  }

  /**
   An event of the log that happened later than the cursor and was not sent can still be sent by some
   continuation of the run, unless it falls in the cursor's own second and one of the two written fractions
   continues the other: then it is lost to the client for good.
   */
  lemma LaterEventLostIff(aggregate: string, s: State, e: LogEvent)
    requires Inv(s) && s.w.open && e in s.log && ForAggregate(e, aggregate) && e !in s.w.sent
    requires Valid(s.w.since) && Valid(e.occurredAt) && Before(s.w.since, e.occurredAt)
    ensures (forall more: seq<Step> :: e !in Exec(aggregate, s, more).w.sent)
       <==> SameSecond(s.w.since, e.occurredAt) && Nested(s.w.since, e.occurredAt)
  {
    LaterEventSkippedIff(s, e);
    hide *;
    if After(e, s.w.since) {
      var poll := SentNext(aggregate, s, e);
      assert e in Exec(aggregate, s, poll).w.sent;
    } else {
      forall more: seq<Step>
        ensures e !in Exec(aggregate, s, more).w.sent
      {
        SkippedForever(aggregate, s, more, e);
      }
    }
  }

  lemma SentNext(aggregate: string, s: State, e: LogEvent) returns (poll: seq<Step>)
    requires Inv(s) && s.w.open && e in s.log && ForAggregate(e, aggregate) && e !in s.w.sent && After(e, s.w.since)
    ensures e in Exec(aggregate, s, poll).w.sent
  {
    hide KeyLess;
    var batch := FetchExists(s.log, aggregate, s.w.since);
    SentIff(aggregate, s, e, batch);
    poll := [Poll(batch, None)];
    hide IsFetch, Apply;
    assert poll[..0] == [];
    assert Exec(aggregate, s, poll) == Apply(aggregate, s, Poll(batch, None));
  }

  // --- Logs whose texts are in order ----------------------------------------------------

  /** Each stored text sorts strictly after all earlier ones. */
  ghost predicate InOrder(log: seq<LogEvent>) {
    && (forall i :: 0 <= i < |log| ==> After(log[i], ZERO))
    && (forall i, k :: 0 <= i < k < |log| ==> After(log[k], log[i].occurredAt))
  }

  lemma InOrderPrefix(log: seq<LogEvent>, longer: seq<LogEvent>)
    requires log <= longer && InOrder(longer)
    ensures InOrder(log)
  {
    hide KeyLess;
    assert forall i :: 0 <= i < |log| ==> log[i] == longer[i];
  }

  function Filter(log: seq<LogEvent>, aggregate: string): seq<LogEvent> {
    if |log| == 0 then []
    else
      var last := log[|log| - 1];
      Filter(log[..|log| - 1], aggregate) + if ForAggregate(last, aggregate) then [last] else []
  }

  lemma {:induction false} FilterFacts(log: seq<LogEvent>, aggregate: string)
    requires InOrder(log)
    ensures InOrder(Filter(log, aggregate))
    ensures forall e :: e in Filter(log, aggregate) <==> e in log && ForAggregate(e, aggregate)
  {
    hide KeyLess;
    if |log| > 0 {
      var before, last := log[..|log| - 1], log[|log| - 1];
      FilterFacts(before, aggregate);
      assert log == before + [last];
      forall e | e in before
        ensures After(last, e.occurredAt)
      {
        var i :| 0 <= i < |before| && before[i] == e;
        assert log[i] == e;
      }
    }
  }

  // Two sequences in order with the same members are the same.
  lemma {:induction false} InOrderUnique(a: seq<LogEvent>, b: seq<LogEvent>)
    requires InOrder(a) && InOrder(b) && forall e :: e in a <==> e in b
    ensures a == b
  {
    hide KeyLess;
    if |a| > 0 {
      assert a[0] in b;
    }
    if |b| > 0 {
      assert b[0] in a;
      assert a[0] in a && a[0] in b;
      assert b[0] in b && b[0] in a;
      FirstsAgree(a, b);
      forall e
        ensures e in a[1..] <==> e in b[1..]
      {
        TailMember(a, e);
        TailMember(b, e);
      }
      InOrderUnique(a[1..], b[1..]);
      assert a == [a[0]] + a[1..] && b == [b[0]] + b[1..];
    }
  }

  lemma FirstsAgree(a: seq<LogEvent>, b: seq<LogEvent>)
    requires InOrder(a) && InOrder(b) && |a| > 0 && |b| > 0 && a[0] in b && b[0] in a
    ensures a[0] == b[0]
  {
    hide KeyLess;
    var i :| 0 <= i < |b| && b[i] == a[0];
    var k :| 0 <= k < |a| && a[k] == b[0];
    if i > 0 && k > 0 {
      KeyLessTotal(a[0].occurredAt, b[0].occurredAt);
    }
  }

  lemma TailMember(a: seq<LogEvent>, e: LogEvent)
    requires InOrder(a) && |a| > 0
    ensures e in a[1..] <==> e in a && e != a[0]
  {
    hide KeyLess;
    if a[0] in a[1..] {
      var i :| 0 <= i < |a[1..]| && a[1..][i] == a[0];
      assert a[i + 1] == a[0];
      KeyLessTotal(a[0].occurredAt, a[0].occurredAt);
    }
    assert a == [a[0]] + a[1..];
  }

  ghost predicate Following(aggregate: string, s: State) {
    && s.w.sent <= Filter(s.log, aggregate)
    && s.w.since == if |s.w.sent| == 0 then ZERO else s.w.sent[|s.w.sent| - 1].occurredAt
  }

  // The next batch is the rest of the filtered log.
  lemma BatchIsRest(aggregate: string, s: State, batch: seq<LogEvent>)
    requires Inv(s) && InOrder(s.log) && Following(aggregate, s) && IsFetch(s.log, aggregate, s.w.since, batch)
    ensures s.w.sent + batch == Filter(s.log, aggregate)
  {
    hide KeyLess;
    var all := Filter(s.log, aggregate);
    var n := |s.w.sent|;
    FilterFacts(s.log, aggregate);
    BatchInOrder(s, aggregate, batch);
    forall e
      ensures e in batch <==> e in all[n..]
    {
      RestMember(aggregate, s, e);
    }
    InOrderUnique(batch, all[n..]);
    assert all == s.w.sent + all[n..];
  }

  lemma BatchInOrder(s: State, aggregate: string, batch: seq<LogEvent>)
    requires InOrder(s.log) && IsFetch(s.log, aggregate, s.w.since, batch)
    ensures InOrder(batch)
  {
    hide KeyLess;
    forall i | 0 <= i < |batch|
      ensures After(batch[i], ZERO)
    {
      assert batch[i] in batch;
    }
    forall i, k | 0 <= i < k < |batch|
      ensures After(batch[k], batch[i].occurredAt)
    {
      assert batch[i] in batch && batch[k] in batch;
      var x :| 0 <= x < |s.log| && s.log[x] == batch[i];
      var y :| 0 <= y < |s.log| && s.log[y] == batch[k];
      assert x != y;
    }
  }

  // Past the n-th of an ordered sequence lie exactly its later members.
  lemma TailAfter(all: seq<LogEvent>, n: nat, e: LogEvent)
    requires InOrder(all) && n <= |all|
    ensures e in all[n..] <==> e in all && After(e, if n == 0 then ZERO else all[n - 1].occurredAt)
  {
    hide KeyLess;
    if e in all[n..] {
      var i :| 0 <= i < |all[n..]| && all[n..][i] == e;
      assert all[n + i] == e;
    }
    if e in all {
      var i :| 0 <= i < |all| && all[i] == e;
      if i >= n {
        assert all[n..][i - n] == e;
      } else {
        KeyLessTotal(all[i].occurredAt, all[n - 1].occurredAt);
      }
    }
  }

  lemma RestMember(aggregate: string, s: State, e: LogEvent)
    requires InOrder(s.log) && Following(aggregate, s)
    ensures e in Filter(s.log, aggregate)[|s.w.sent|..] <==> e in s.log && Matches(e, aggregate, s.w.since)
  {
    FilterFacts(s.log, aggregate);
    hide KeyLess, Filter, InOrder;
    TailAfter(Filter(s.log, aggregate), |s.w.sent|, e);
  }

  /** When every stored text sorts strictly after the earlier ones, what is sent is a prefix of the filtered log. */
  lemma {:induction false} SendsPrefix(aggregate: string, steps: seq<Step>)
    requires InOrder(Exec(aggregate, START, steps).log)
    ensures Following(aggregate, Exec(aggregate, START, steps))
  {
    if |steps| > 0 {
      var before, st := steps[..|steps| - 1], steps[|steps| - 1];
      var s := Exec(aggregate, START, before);
      InOrderPrefix(s.log, Apply(aggregate, s, st).log);
      SendsPrefix(aggregate, before);
      NeverSentTwice(aggregate, before);
      FollowingStep(aggregate, s, st);
    }
  }

  lemma FollowingStep(aggregate: string, s: State, st: Step)
    requires Inv(s) && InOrder(s.log) && Following(aggregate, s)
    ensures Following(aggregate, Apply(aggregate, s, st))
  {
    hide KeyLess, InOrder;
    if st.Append? {
      assert (s.log + [st.e])[..|s.log|] == s.log;
    } else if st.Poll? && s.w.open && IsFetch(s.log, aggregate, s.w.since, st.batch) {
      BatchIsRest(aggregate, s, st.batch);
    }
  }

  /** And a poll whose sends all succeed brings the client up to date. */
  lemma CatchesUp(aggregate: string, steps: seq<Step>, batch: seq<LogEvent>)
    requires var s := Exec(aggregate, START, steps);
             InOrder(s.log) && s.w.open && IsFetch(s.log, aggregate, s.w.since, batch)
    ensures var s := Exec(aggregate, START, steps);
            var sent := Apply(aggregate, s, Poll(batch, None)).w.sent;
            && sent == Filter(s.log, aggregate)
            && forall e :: e in sent <==> e in s.log && (aggregate == "" || e.aggregateId == aggregate)
  {
    hide KeyLess;
    FilterFacts(Exec(aggregate, START, steps).log, aggregate);
    SendsPrefix(aggregate, steps);
    NeverSentTwice(aggregate, steps);
    BatchIsRest(aggregate, Exec(aggregate, START, steps), batch);
    assert batch[..|batch|] == batch;
  }
}
