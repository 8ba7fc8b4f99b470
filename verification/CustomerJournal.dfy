/**
 Any number of requests checking and committing in any order, with failures at
 every point: the outbox replays to the customers table.
 */
module CustomerJournal {
  import opened Wrappers
  import opened OutboxTable
  import opened CustomerService

  datatype State = State(db: Db, pending: map<nat, Op>)

  /** The checks and the transaction of a request are separate steps; other requests run in between. */
  datatype Step =
    | CheckedRegister(request: nat, cmd: Command, newId: Uuid, now: Time, dbDown: bool)
    | CheckedUpdate(request: nat, id: Uuid, cmd: Command, now: Time, dbDown: bool)
    | CheckedRemove(request: nat, id: Uuid, dbDown: bool)
    | Transaction(request: nat, messageId: Uuid, fault: TxFault)
    | Abandoned(request: nat)

  function Pend(s: State, request: nat, checked: Result<Op, Error>): State {
    if checked.Ok? && request !in s.pending then s.(pending := s.pending[request := checked.value]) else s
  }

  function Apply(t: Text, s: State, st: Step): State {
    match st
    case CheckedRegister(r, cmd, newId, now, dbDown) =>
      Pend(s, r, CheckRegister(t, s.db.customers, cmd, newId, now, dbDown))
    case CheckedUpdate(r, id, cmd, now, dbDown) => Pend(s, r, CheckUpdate(t, s.db.customers, id, cmd, now, dbDown))
    case CheckedRemove(r, id, dbDown) => Pend(s, r, CheckRemove(s.db.customers, id, dbDown))
    case Transaction(r, messageId, fault) =>
      if r in s.pending then State(AfterTx(s.db, s.pending[r], messageId, fault), s.pending - {r}) else s
    case Abandoned(r) => s.(pending := s.pending - {r})
  }

  function Run(t: Text, steps: seq<Step>): State {
    if |steps| == 0 then State(Db(map[], []), map[])
    else Apply(t, Run(t, steps[..|steps| - 1]), steps[|steps| - 1])
  }

  /** A request that nothing comes between is its check and its transaction, as the contract of the call promises. */
  lemma CallsAreSteps(t: Text, s: State, r: nat, id: Uuid, cmd: Command, now: Time, dbDown: bool, messageId: Uuid,
                      fault: TxFault)
    requires r !in s.pending
    ensures var tx := Transaction(r, messageId, fault);
            && Apply(t, Apply(t, s, CheckedRegister(r, cmd, id, now, dbDown)), tx) ==
               s.(db := AfterWrite(s.db, CheckRegister(t, s.db.customers, cmd, id, now, dbDown), messageId, fault))
            && Apply(t, Apply(t, s, CheckedUpdate(r, id, cmd, now, dbDown)), tx) ==
               s.(db := AfterWrite(s.db, CheckUpdate(t, s.db.customers, id, cmd, now, dbDown), messageId, fault))
            && Apply(t, Apply(t, s, CheckedRemove(r, id, dbDown)), tx) ==
               s.(db := AfterWrite(s.db, CheckRemove(s.db.customers, id, dbDown), messageId, fault))
  {
    hide CheckRegister, CheckUpdate, CheckRemove, AfterTx;
    assert s.pending - {r} == s.pending;
  }

  /** A request can give up between the two. */
  lemma RequestsGiveUp(t: Text, s: State, r: nat)
    ensures Apply(t, s, Abandoned(r)) == s.(pending := s.pending - {r})
  {
  }

  // --- Replaying the journal ---------------------------------------------------

  /** What a consumer that applies one event knows afterwards. */
  function ApplyEvent(emails: map<Uuid, string>, e: Event): map<Uuid, string> {
    match e
    case Registered(id, email) => emails[id := email]
    case Updated(id, email) => emails[id := email]
    case Removed(id) => emails - {id}
  }

  function Replay(journal: seq<Entry>): map<Uuid, string> {
    if |journal| == 0 then map[]
    else ApplyEvent(Replay(journal[..|journal| - 1]), journal[|journal| - 1].event)
  }

  function Emails(cs: Customers): map<Uuid, string> {
    map id | id in cs :: cs[id].email
  }

  ghost predicate UniqueEmails(emails: map<Uuid, string>) {
    forall a, b :: a in emails && b in emails && emails[a] == emails[b] ==> a == b
  }

  /** An event that makes sense to a consumer that knows `emails`: no double registration, no update of a stranger. */
  ghost predicate Sensible(emails: map<Uuid, string>, e: Event) {
    match e
    case Registered(id, email) => id !in emails && email !in emails.Values
    case Updated(id, email) => id in emails && forall other :: other in emails && emails[other] == email ==> other == id
    case Removed(_) => true
  }

  /** Every event makes sense after the events before it, and no message id repeats. */
  ghost predicate Legal(journal: seq<Entry>) {
    && (forall n :: 0 <= n < |journal| ==> Sensible(Replay(journal[..n]), journal[n].event))
    && (forall i, k :: 0 <= i < k < |journal| ==> journal[i].messageId != journal[k].messageId)
  }

  ghost predicate Mirrors(db: Db) {
    Replay(db.journal) == Emails(db.customers) && UniqueEmails(Emails(db.customers)) && Legal(db.journal)
  }

  // One statement and its event do the same thing to the table and to a replica of it.
  lemma WriteMirrored(cs: Customers, op: Op)
    requires Written(cs, op).Some? && UniqueEmails(Emails(cs))
    ensures Emails(Written(cs, op).value) == ApplyEvent(Emails(cs), EventOf(op))
    ensures UniqueEmails(Emails(Written(cs, op).value))
    ensures Sensible(Emails(cs), EventOf(op))
  {
    match op
    case ToRegister(c) => PutMirrored(cs, c.id, c);
    case ToUpdate(c) => PutMirrored(cs, c.id, c.(createdAt := cs[c.id].createdAt));
    case ToRemove(id) => assert Emails(cs - {id}) == Emails(cs) - {id};
  }

  lemma PutMirrored(cs: Customers, id: Uuid, row: Customer)
    requires UniqueEmails(Emails(cs)) && forall other :: other in cs && other != id ==> cs[other].email != row.email
    ensures Emails(cs[id := row]) == Emails(cs)[id := row.email]
    ensures UniqueEmails(Emails(cs[id := row]))
    ensures forall other :: other in Emails(cs) && other != id ==> Emails(cs)[other] != row.email
  {
  }

  lemma LegalExtended(journal: seq<Entry>, entry: Entry)
    requires Legal(journal) && Sensible(Replay(journal), entry.event) && !MessageIdUsed(journal, entry.messageId)
    ensures Legal(journal + [entry])
    ensures Replay(journal + [entry]) == ApplyEvent(Replay(journal), entry.event)
  {
    var j := journal + [entry];
    assert j[..|journal|] == journal;
    forall n | 0 <= n < |j|
      ensures Sensible(Replay(j[..n]), j[n].event)
    {
      if n < |journal| {
        assert j[..n] == journal[..n];
      }
    }
  }

  lemma TxMirrored(db: Db, op: Op, messageId: Uuid, fault: TxFault)
    requires Mirrors(db)
    ensures Mirrors(AfterTx(db, op, messageId, fault))
  {
    if Commits(fault) && Transacted(db, op, messageId).Some? {
      WriteMirrored(db.customers, op);
      LegalExtended(db.journal, Entry(messageId, EventOf(op)));
    }
  }

  /**
   In every interleaving, the outbox events in commit order rebuild exactly the id-to-email map of the
   table, no two live customers share an email, and the events make sense one after the other.
   */
  lemma {:induction false} JournalRefinement(t: Text, steps: seq<Step>)
    ensures Mirrors(Run(t, steps).db)
  {
    if |steps| > 0 {
      var before := Run(t, steps[..|steps| - 1]);
      JournalRefinement(t, steps[..|steps| - 1]);
      match steps[|steps| - 1]
      case Transaction(r, messageId, fault) =>
        if r in before.pending {
          TxMirrored(before.db, before.pending[r], messageId, fault);
        }
      case _ =>
    }
  }

  /** A consumer that has read any prefix of the outbox never knows two customers by one email. */
  lemma {:induction false} PrefixesUnique(journal: seq<Entry>, n: nat)
    requires Legal(journal) && n <= |journal|
    ensures UniqueEmails(Replay(journal[..n]))
  {
    if n > 0 {
      PrefixesUnique(journal, n - 1);
      assert journal[..n][..n - 1] == journal[..n - 1];
      assert Sensible(Replay(journal[..n - 1]), journal[n - 1].event);
    }
  }

  lemma Snoc(t: Text, steps: seq<Step>, st: Step)
    ensures Run(t, steps + [st]) == Apply(t, Run(t, steps), st)
  {
    assert (steps + [st])[..|steps|] == steps;
  }

  // --- Which duplicates are reported as such ------------------------------------------

  function Normal(t: Text, email: string): string {
    t.lower(t.trim(email))
  }

  ghost predicate Idempotent(t: Text) {
    forall e :: Normal(t, Normal(t, e)) == Normal(t, e)
  }

  predicate NormalOp(t: Text, op: Op) {
    match op
    case ToRegister(c) => Normal(t, c.email) == c.email
    case ToUpdate(c) => Normal(t, c.email) == c.email
    case ToRemove(_) => true
  }

  /** Every stored email, and every one about to be stored, is in normal form. */
  ghost predicate Normalised(t: Text, s: State) {
    && (forall id :: id in s.db.customers ==> Normal(t, s.db.customers[id].email) == s.db.customers[id].email)
    && (forall r :: r in s.pending ==> NormalOp(t, s.pending[r]))
  }

  lemma {:induction false} NormalisedRun(t: Text, steps: seq<Step>)
    requires Idempotent(t)
    ensures Normalised(t, Run(t, steps))
  {
    if |steps| > 0 {
      var before := Run(t, steps[..|steps| - 1]);
      NormalisedRun(t, steps[..|steps| - 1]);
      NormalisedStep(t, before, steps[|steps| - 1]);
    }
  }

  lemma NormalisedStep(t: Text, s: State, st: Step)
    requires Idempotent(t) && Normalised(t, s)
    ensures Normalised(t, Apply(t, s, st))
  {
    match st
    case CheckedRegister(_, cmd, _, _, _) => assert Normal(t, Normal(t, cmd.email)) == Normal(t, cmd.email);
    case CheckedUpdate(_, _, cmd, _, _) => assert Normal(t, Normal(t, cmd.email)) == Normal(t, cmd.email);
    case Transaction(r, _, _) =>
      if r in s.pending {
        assert NormalOp(t, s.pending[r]);
      }
    case _ =>
  }

  /**
   Registering an email that is taken always fails, but the lookup uses the email as it was typed and the
   table holds normal forms: the caller is told EmailExists exactly when it typed the normal form.
   */
  lemma DuplicateReportedIff(t: Text, steps: seq<Step>, cmd: Command, newId: Uuid, messageId: Uuid, now: Time,
                             fault: TxFault)
    requires Idempotent(t) && Validate(t, cmd, now).None?
    requires EmailUsed(Run(t, steps).db.customers, Normal(t, cmd.email))
    ensures var db := Run(t, steps).db;
            var checked := CheckRegister(t, db.customers, cmd, newId, now, false);
            && (checked.Ok? ==> AfterTx(db, checked.value, messageId, fault) == db)
            && (checked == Err(EmailExists) <==> cmd.email == Normal(t, cmd.email))
  {
    NormalisedRun(t, steps);
    var cs := Run(t, steps).db.customers;
    var id :| id in cs && cs[id].email == Normal(t, cmd.email);
  }

  /**
   The check alone does not keep emails apart: two registrations of one email can both pass it. The
   second transaction then fails on the table's constraint, so its caller does not see EmailExists.
   */
  lemma ChecksCanBothPass(t: Text, cmd: Command, a: Uuid, b: Uuid, now: Time, m: Uuid, n: Uuid)
    requires a != b && m != n && Validate(t, cmd, now).None?
    ensures var checks := [CheckedRegister(0, cmd, a, now, false), CheckedRegister(1, cmd, b, now, false)];
            var after := Run(t, checks + [Transaction(0, m, NoFault)] + [Transaction(1, n, NoFault)]);
            && Run(t, checks).pending.Keys == {0, 1}
            && after.db.customers.Keys == {a} && |after.db.journal| == 1
  {
    var c0, c1 := CheckedRegister(0, cmd, a, now, false), CheckedRegister(1, cmd, b, now, false);
    Snoc(t, [], c0);
    Snoc(t, [c0], c1);
    assert [] + [c0] == [c0] && [c0] + [c1] == [c0, c1];
    var s := Run(t, [c0, c1]);
    assert s.pending.Keys == {0, 1};
    Snoc(t, [c0, c1], Transaction(0, m, NoFault));
    Snoc(t, [c0, c1] + [Transaction(0, m, NoFault)], Transaction(1, n, NoFault));
    var first := Apply(t, s, Transaction(0, m, NoFault));
    assert first.db.customers[a].email == t.lower(t.trim(cmd.email));
    assert EmailUsed(first.db.customers, t.lower(t.trim(cmd.email)));
  }
}
