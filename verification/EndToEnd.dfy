/**
 From the transaction that writes a customer to the handler that reacts to it:
 one system in which requests check and commit, each commit puts its event in
 the outbox, the outbox delivers, a broker repeats and reorders, and the
 deduplicating consumer dispatches.
 */
module EndToEnd {
  import opened Wrappers
  import opened OutboxTable
  import P = OutboxProtocol
  import S = OutboxSafety
  import J = CustomerService
  import CJ = CustomerJournal
  import opened EventConsumer
  import opened KafkaProducer

  /** What a deployment fixes: normalisation, the outbox settings, the texts of ids, times and payloads. */
  datatype System = System(text: J.Text, outbox: P.Config, texts: Texts, encode: J.Event -> string)

  datatype State = State(customers: CJ.State, outbox: P.State)

  /** A step of a request, whose message would carry `createdAt`, or a step of the outbox that is no commit. */
  datatype Step = Request(request: CJ.Step, createdAt: Time) | Outbox(delivery: P.Step)

  /** uuid.String: no two ids share one, and none is empty. */
  ghost predicate Naming(show: Uuid -> string) {
    && (forall a, b :: show(a) == show(b) ==> a == b)
    && (forall a :: show(a) != "")
  }

  function EventName(e: J.Event): string {
    match e
    case Registered(_, _) => "CustomerRegistered"
    case Updated(_, _) => "CustomerUpdated"
    case Removed(_) => "CustomerRemoved"
  }

  /** The outbox message of a journal entry. */
  function MessageOf(sys: System, e: J.Entry, createdAt: Time): Message {
    Message(e.messageId, e.event.id, EventName(e.event), sys.encode(e.event), createdAt)
  }

  /** The entry a step of a request commits, if it commits one. */
  function CommittedBy(cs: CJ.State, st: CJ.Step): Option<J.Entry> {
    match st
    case Transaction(r, messageId, fault) =>
      if r in cs.pending && J.Commits(fault) && J.Transacted(cs.db, cs.pending[r], messageId).Some?
      then Some(J.Entry(messageId, J.EventOf(cs.pending[r])))
      else None
    case _ => None
  }

  /** A commit writes the customer, the journal and the outbox row in one transaction. */
  function Apply(sys: System, s: State, st: Step): State {
    match st
    case Request(request, createdAt) =>
      var entry := CommittedBy(s.customers, request);
      var outbox := if entry.None? then s.outbox
                    else P.Apply(sys.outbox, s.outbox, P.Commit(MessageOf(sys, entry.value, createdAt)));
      State(CJ.Apply(sys.text, s.customers, request), outbox)
    case Outbox(delivery) =>
      if delivery.Commit? then s else s.(outbox := P.Apply(sys.outbox, s.outbox, delivery))
  }

  function Run(sys: System, start: Time, steps: seq<Step>): State {
    if |steps| == 0 then State(CJ.Run(sys.text, []), P.Init(start))
    else Apply(sys, Run(sys, start, steps[..|steps| - 1]), steps[|steps| - 1])
  }

  // --- Each half is a run of its own ---------------------------------------------------

  function RequestSteps(steps: seq<Step>): seq<CJ.Step> {
    if |steps| == 0 then []
    else
      var before, st := RequestSteps(steps[..|steps| - 1]), steps[|steps| - 1];
      if st.Request? then before + [st.request] else before
  }

  function OutboxSteps(sys: System, start: Time, steps: seq<Step>): seq<P.Step> {
    if |steps| == 0 then []
    else
      var sofar := steps[..|steps| - 1];
      OutboxSteps(sys, start, sofar) + OutboxPart(sys, Run(sys, start, sofar), steps[|steps| - 1])
  }

  function OutboxPart(sys: System, s: State, st: Step): seq<P.Step> {
    match st
    case Request(request, createdAt) =>
      var entry := CommittedBy(s.customers, request);
      if entry.None? then [] else [P.Commit(MessageOf(sys, entry.value, createdAt))]
    case Outbox(delivery) => if delivery.Commit? then [] else [delivery]
  }

  lemma {:induction false} Halves(sys: System, start: Time, steps: seq<Step>)
    ensures Run(sys, start, steps).customers == CJ.Run(sys.text, RequestSteps(steps))
    ensures Run(sys, start, steps).outbox == P.Run(sys.outbox, start, OutboxSteps(sys, start, steps))
  {
    if |steps| > 0 {
      var sofar, st := steps[..|steps| - 1], steps[|steps| - 1];
      Halves(sys, start, sofar);
      RequestHalf(sys, Run(sys, start, sofar), st, RequestSteps(sofar));
      OutboxHalf(sys, Run(sys, start, sofar), st);
      hide Apply, OutboxPart;
      OutboxSnoc(sys.outbox, start, OutboxSteps(sys, start, sofar), OutboxPart(sys, Run(sys, start, sofar), st));
    }
  }

  lemma RequestHalf(sys: System, s: State, st: Step, requests: seq<CJ.Step>)
    requires s.customers == CJ.Run(sys.text, requests)
    ensures Apply(sys, s, st).customers ==
            CJ.Run(sys.text, if st.Request? then requests + [st.request] else requests)
  {
    hide P.Apply, CJ.Apply;
    if st.Request? {
      CJ.Snoc(sys.text, requests, st.request);
    }
  }

  lemma OutboxHalf(sys: System, s: State, st: Step)
    ensures var part := OutboxPart(sys, s, st);
            && |part| <= 1
            && Apply(sys, s, st).outbox == if part == [] then s.outbox else P.Apply(sys.outbox, s.outbox, part[0])
  {
    hide P.Apply, CJ.Apply, CommittedBy, MessageOf;
  }

  // At most one more step of the outbox.
  lemma OutboxSnoc(c: P.Config, start: Time, steps: seq<P.Step>, more: seq<P.Step>)
    requires |more| <= 1
    ensures P.Run(c, start, steps + more) ==
            if more == [] then P.Run(c, start, steps) else P.Apply(c, P.Run(c, start, steps), more[0])
  {
    if more == [] {
      assert steps + more == steps;
    } else {
      assert (steps + more)[..|steps + more| - 1] == steps;
    }
  }

  // --- The outbox holds the journal ------------------------------------------------------

  ghost predicate InOutbox(sys: System, outbox: P.State, e: J.Entry) {
    && e.messageId in outbox.rows
    && outbox.rows[e.messageId].msg == MessageOf(sys, e, outbox.rows[e.messageId].msg.createdAt)
  }

  /** Every journal entry is a row with its type, subject and payload, and there are no other rows. */
  ghost predicate Linked(sys: System, s: State) {
    && (forall n :: 0 <= n < |s.customers.db.journal| ==> InOutbox(sys, s.outbox, s.customers.db.journal[n]))
    && (forall id :: id in s.outbox.rows ==> J.MessageIdUsed(s.customers.db.journal, id))
  }

  lemma JournalGrows(t: J.Text, cs: CJ.State, st: CJ.Step)
    ensures var entry := CommittedBy(cs, st);
            && CJ.Apply(t, cs, st).db.journal == cs.db.journal + (if entry.Some? then [entry.value] else [])
            && (entry.Some? ==> !J.MessageIdUsed(cs.db.journal, entry.value.messageId))
  {
  }

  lemma UsedLater(journal: seq<J.Entry>, more: seq<J.Entry>, id: Uuid)
    requires J.MessageIdUsed(journal, id)
    ensures J.MessageIdUsed(journal + more, id)
  {
    var i :| 0 <= i < |journal| && journal[i].messageId == id;
    assert (journal + more)[i].messageId == id;
  }

  lemma LinkedRequest(sys: System, s: State, st: CJ.Step, createdAt: Time)
    requires S.WellFormed(s.outbox) && Linked(sys, s)
    ensures Linked(sys, Apply(sys, s, Request(st, createdAt)))
  {
    var s' := Apply(sys, s, Request(st, createdAt));
    var journal, entry := s.customers.db.journal, CommittedBy(s.customers, st);
    JournalGrows(sys.text, s.customers, st);
    hide S.WellFormed, CJ.Apply, CommittedBy;
    if entry.Some? {
      var e := entry.value;
      assert e.messageId !in s.outbox.rows;
      assert s'.customers.db.journal[|journal|] == e;
      forall id | id in s'.outbox.rows
        ensures J.MessageIdUsed(s'.customers.db.journal, id)
      {
        if id in s.outbox.rows {
          UsedLater(journal, [e], id);
        }
      }
    } else {
      assert s'.customers.db.journal == journal;
    }
  }

  lemma LinkedDelivery(sys: System, s: State, st: P.Step)
    requires S.WellFormed(s.outbox) && Linked(sys, s)
    ensures Linked(sys, Apply(sys, s, Outbox(st)))
  {
    if !st.Commit? {
      var s' := Apply(sys, s, Outbox(st));
      hide P.Apply, S.WellFormed;
      forall n | 0 <= n < |s.customers.db.journal|
        ensures InOutbox(sys, s'.outbox, s.customers.db.journal[n])
      {
        var id := s.customers.db.journal[n].messageId;
        assert InOutbox(sys, s.outbox, s.customers.db.journal[n]);
        S.RowStep(sys.outbox, s.outbox, st, id);
        S.RowOrigin(sys.outbox, s.outbox, st, id);
      }
      forall id | id in s'.outbox.rows
        ensures id in s.outbox.rows
      {
        S.RowOrigin(sys.outbox, s.outbox, st, id);
      }
    }
  }

  /**
   In every run the outbox holds exactly the journal, entry by entry, and the journal replays to the
   customers: no event is missing, invented or changed between a customer's row and the outbox.
   */
  lemma {:induction false} OutboxIsJournal(sys: System, start: Time, steps: seq<Step>)
    ensures Linked(sys, Run(sys, start, steps))
    ensures CJ.Mirrors(Run(sys, start, steps).customers.db)
    ensures S.WellFormed(Run(sys, start, steps).outbox)
  {
    Halves(sys, start, steps);
    CJ.JournalRefinement(sys.text, RequestSteps(steps));
    S.WellFormedRun(sys.outbox, start, OutboxSteps(sys, start, steps));
    if |steps| > 0 {
      var s, st := Run(sys, start, steps[..|steps| - 1]), steps[|steps| - 1];
      OutboxIsJournal(sys, start, steps[..|steps| - 1]);
      hide Linked, S.WellFormed, CJ.Mirrors, Apply;
      match st
      case Request(request, createdAt) => LinkedRequest(sys, s, request, createdAt);
      case Outbox(delivery) => LinkedDelivery(sys, s, delivery);
    }
  }

  /** The type says which kind of event it is. */
  predicate Names(eventType: string, e: J.Event) {
    && (eventType == "CustomerRegistered" <==> e.Registered?)
    && (eventType == "CustomerUpdated" <==> e.Updated?)
    && (eventType == "CustomerRemoved" <==> e.Removed?)
  }

  /** What the outbox row of a journal entry holds. */
  lemma RowTells(sys: System, start: Time, steps: seq<Step>, n: nat)
    requires n < |Run(sys, start, steps).customers.db.journal|
    ensures var s := Run(sys, start, steps);
            var e := s.customers.db.journal[n];
            && e.messageId in s.outbox.rows
            && var msg := s.outbox.rows[e.messageId].msg;
            && msg.id == e.messageId && msg.aggregateId == e.event.id
            && Names(msg.eventType, e.event) && msg.payload == sys.encode(e.event)
  {
    OutboxIsJournal(sys, start, steps);
    var s := Run(sys, start, steps);
    assert InOutbox(sys, s.outbox, s.customers.db.journal[n]);
    NamesFit(s.customers.db.journal[n].event);
    hide Run, Names, EventName, Linked, CJ.Mirrors, S.WellFormed;
  }

  lemma NamesFit(e: J.Event)
    ensures Names(EventName(e), e)
  {
    assert "CustomerUpdated"[8] == 'U' && "CustomerRemoved"[8] == 'R' && "CustomerRegistered"[10] == 'g';
    assert "CustomerRemoved"[10] == 'm' && "CustomerUpdated"[10] == 'd';
  }

  // --- From the outbox to the handler ------------------------------------------------------

  predicate OnTopic(s: P.State, texts: Texts, r: Record) {
    exists i :: 0 <= i < |s.topic| && s.topic[i] in s.rows && r == RecordOf(texts, s.rows[s.topic[i]].msg)
  }

  /** Whatever the broker delivers was put on the topic; it may come any number of times, in any order. */
  ghost predicate FromTopic(s: P.State, texts: Texts, stream: seq<Record>) {
    forall i :: 0 <= i < |stream| ==> OnTopic(s, texts, stream[i])
  }

  /** The typed handler that fits the event. */
  predicate Fits(target: Target, e: J.Event) {
    && (target.HandleRegistered? <==> e.Registered?)
    && (target.HandleUpdated? <==> e.Updated?)
    && (target.HandleRemoved? <==> e.Removed?)
  }

  /** d hands the event of entry e, under its id, to the handler that fits it. */
  predicate Announces(sys: System, d: Dispatch, e: J.Entry) {
    d.messageId == sys.texts.show(e.messageId) && Fits(d.target, e.event) && d.payload == sys.encode(e.event)
  }

  /** r is the record of entry e: keyed by the customer, with the entry's id, type and payload. */
  predicate Carries(sys: System, r: Record, e: J.Entry) {
    && r.key == sys.texts.show(e.event.id) && r.value == sys.encode(e.event)
    && MessageId(r) == sys.texts.show(e.messageId) && Names(EventType(r), e.event)
  }

  lemma CarriesAnnounces(sys: System, r: Record, e: J.Entry)
    requires Carries(sys, r, e)
    ensures |Dispatched(r)| == 1 && Announces(sys, Dispatched(r)[0], e)
  {
  }

  /** Every record of the topic is the record of a journal entry. */
  lemma RecordTells(sys: System, start: Time, steps: seq<Step>, r: Record) returns (n: nat)
    requires OnTopic(Run(sys, start, steps).outbox, sys.texts, r)
    ensures var journal := Run(sys, start, steps).customers.db.journal;
            n < |journal| && journal[n].messageId in Run(sys, start, steps).outbox.topic && Carries(sys, r, journal[n])
  {
    var s := Run(sys, start, steps);
    var o, journal := s.outbox, s.customers.db.journal;
    OutboxIsJournal(sys, start, steps);
    var i :| 0 <= i < |o.topic| && o.topic[i] in o.rows && r == RecordOf(sys.texts, o.rows[o.topic[i]].msg);
    RecordHeaders(sys.texts, o.rows[o.topic[i]].msg);
    n :| n < |journal| && journal[n].messageId == o.topic[i];
    hide Run, Linked, S.WellFormed, CJ.Mirrors;
    RowTells(sys, start, steps, n);
  }

  /** Some journal entry is what d announces. */
  ghost predicate Announced(sys: System, journal: seq<J.Entry>, d: Dispatch) {
    exists n :: 0 <= n < |journal| && Announces(sys, d, journal[n])
  }

  /**
   Over any run, crashes, reclaims and repeated publishes included, and any stream the broker makes of it:
   every dispatch hands the event of a journal entry to the handler that fits it, and no entry is dispatched
   twice; the dispatches are those of the stream's first occurrences.
   */
  lemma AtMostOnceEndToEnd(sys: System, start: Time, steps: seq<Step>, stream: seq<Record>)
    requires FromTopic(Run(sys, start, steps).outbox, sys.texts, stream)
    ensures var journal := Run(sys, start, steps).customers.db.journal;
            var d := HandledAll(NOTHING, stream).dispatched;
            && d == Dispatches(FirstOccurrences(stream))
            && Once(HandledAll(NOTHING, stream))
            && (forall i :: 0 <= i < |d| ==> Announced(sys, journal, d[i]))
  {
    DispatchIsDedup(stream);
    AtMostOnce(stream);
    hide *;
    var d := HandledAll(NOTHING, stream).dispatched;
    forall i | 0 <= i < |d|
      ensures Announced(sys, Run(sys, start, steps).customers.db.journal, d[i])
    {
      EntryOfDispatch(sys, start, steps, stream, d, i);
    }
  }

  lemma EntryOfDispatch(sys: System, start: Time, steps: seq<Step>, stream: seq<Record>, ds: seq<Dispatch>, i: nat)
    requires FromTopic(Run(sys, start, steps).outbox, sys.texts, stream)
    requires AllFrom(stream, ds) && i < |ds|
    ensures Announced(sys, Run(sys, start, steps).customers.db.journal, ds[i])
  {
    hide Run, OnTopic, Announces, Carries, Dispatched;
    assert DispatchedFrom(stream, ds[i]);
    var k :| 0 <= k < |stream| && DispatchedAs(stream[k], ds[i]);
    var n := RecordTells(sys, start, steps, stream[k]);
    CarriesAnnounces(sys, stream[k], Run(sys, start, steps).customers.db.journal[n]);
  }

  /** The event of the entry has been handed to the handler that fits it. */
  ghost predicate Delivered(sys: System, h: Seen, e: J.Entry) {
    exists i :: 0 <= i < |h.dispatched| && Announces(sys, h.dispatched[i], e)
  }

  // An entry each of whose records carries it has been dispatched once one was delivered.
  lemma {:induction false} Reached(sys: System, stream: seq<Record>, e: J.Entry)
    requires sys.texts.show(e.messageId) != "" && Occurs(stream, sys.texts.show(e.messageId))
    requires forall i :: 0 <= i < |stream| && MessageId(stream[i]) == sys.texts.show(e.messageId) ==>
                           Carries(sys, stream[i], e)
    ensures Delivered(sys, HandledAll(NOTHING, stream), e)
  {
    var id, before, last := sys.texts.show(e.messageId), stream[..|stream| - 1], stream[|stream| - 1];
    var h := HandledAll(NOTHING, before);
    OccursSnoc(stream, id);
    ProcessedAre(before, id);
    hide Carries, Announces, Dispatched, Occurs;
    if Occurs(before, id) {
      Reached(sys, before, e);
      var i :| 0 <= i < |h.dispatched| && Announces(sys, h.dispatched[i], e);
      assert HandledAll(NOTHING, stream).dispatched[i] == h.dispatched[i];
    } else {
      CarriesAnnounces(sys, last, e);
      assert HandledAll(NOTHING, stream).dispatched[|h.dispatched|] == Dispatched(last)[0];
    }
  }

  /**
   Nothing on the way loses an event silently. Once the broker has delivered everything on the topic, each
   journal entry is still to be processed, or in the dead-letter topic, or out of attempts, or its event has
   been handed to the handler that fits it, and then exactly once.
   */
  lemma NothingLostEndToEnd(sys: System, start: Time, steps: seq<Step>, stream: seq<Record>, n: nat)
    requires Naming(sys.texts.show)
    requires FromTopic(Run(sys, start, steps).outbox, sys.texts, stream)
    requires forall id :: id in Run(sys, start, steps).outbox.topic ==> Occurs(stream, sys.texts.show(id))
    requires n < |Run(sys, start, steps).customers.db.journal|
    ensures var s := Run(sys, start, steps);
            var e := s.customers.db.journal[n];
            && e.messageId in s.outbox.rows
            && var r := s.outbox.rows[e.messageId];
            || r.processedAt.None?
            || e.messageId in s.outbox.deadLetters
            || (r.attempts >= sys.outbox.maxAttempts && r.lastError.Some?)
            || (Delivered(sys, HandledAll(NOTHING, stream), e) && Once(HandledAll(NOTHING, stream)))
  {
    var s := Run(sys, start, steps);
    var e := s.customers.db.journal[n];
    RowTells(sys, start, steps, n);
    Halves(sys, start, steps);
    S.NoSilentDiscard(sys.outbox, start, OutboxSteps(sys, start, steps));
    AtMostOnce(stream);
    hide Run;
    assert S.Accounted(sys.outbox, s.outbox, e.messageId);
    if e.messageId in s.outbox.topic {
      forall i | 0 <= i < |stream| && MessageId(stream[i]) == sys.texts.show(e.messageId)
        ensures Carries(sys, stream[i], e)
      {
        EntryOfRecord(sys, start, steps, stream[i], n);
      }
      Reached(sys, stream, e);
    }
  }

  // A record that carries an entry's id is that entry's.
  lemma EntryOfRecord(sys: System, start: Time, steps: seq<Step>, r: Record, n: nat)
    requires Naming(sys.texts.show) && OnTopic(Run(sys, start, steps).outbox, sys.texts, r)
    requires n < |Run(sys, start, steps).customers.db.journal|
    requires MessageId(r) == sys.texts.show(Run(sys, start, steps).customers.db.journal[n].messageId)
    ensures Carries(sys, r, Run(sys, start, steps).customers.db.journal[n])
  {
    var journal := Run(sys, start, steps).customers.db.journal;
    var k := RecordTells(sys, start, steps, r);
    OutboxIsJournal(sys, start, steps);
    hide Run, Linked, S.WellFormed;
    assert journal[k].messageId == journal[n].messageId;
    assert k == n;
  }
}
