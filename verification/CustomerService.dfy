/** Customers, the checks their commands pass, and the transactions that write them with their event. */
module CustomerService {
  import opened Wrappers
  import opened OutboxTable

  datatype Customer = Customer(id: Uuid, name: string, email: string, birthDate: Time, createdAt: Time, updatedAt: Time)

  type Customers = map<Uuid, Customer>

  datatype Event = Registered(id: Uuid, email: string) | Updated(id: Uuid, email: string) | Removed(id: Uuid)

  /** One row of the outbox, in the order the transactions commit. */
  datatype Entry = Entry(messageId: Uuid, event: Event)

  datatype Db = Db(customers: Customers, journal: seq<Entry>)

  // strings.TrimSpace and strings.ToLower, of which only the signature matters here.
  datatype Text = Text(trim: string -> string, lower: string -> string)

  datatype Command = Command(name: string, email: string, birthDate: Time)

  datatype Error =
    | EmailExists | NotFound | NameRequired | EmailRequired | InvalidBirthDate
    | Storage   // any failure of the database

  /** Where a transaction fails, if it does. After CommitReplyLost it has committed all the same. */
  datatype TxFault = NoFault | BeginFails | WriteFails | OutboxFails | CommitFails | CommitReplyLost

  /** A command that has passed its checks and is about to be written. */
  datatype Op = ToRegister(c: Customer) | ToUpdate(c: Customer) | ToRemove(id: Uuid)

  predicate EmailUsed(cs: Customers, email: string) {
    exists id :: id in cs && cs[id].email == email
  }

  predicate EmailUsedByOther(cs: Customers, email: string, self: Uuid) {
    exists id :: id in cs && id != self && cs[id].email == email
  }

  /** The order of the validations is the order of the errors. */
  function Validate(t: Text, cmd: Command, now: Time): Option<Error> {
    if t.trim(cmd.name) == "" then Some(NameRequired)
    else if t.trim(cmd.email) == "" then Some(EmailRequired)
    else if cmd.birthDate > now then Some(InvalidBirthDate)
    else None
  }

  /** What Register decides before its transaction. The lookup uses the email as given, the row the normalised one. */
  function CheckRegister(t: Text, cs: Customers, cmd: Command, newId: Uuid, now: Time, dbDown: bool)
    : Result<Op, Error>
  {
    if dbDown then Err(Storage)
    else if EmailUsed(cs, cmd.email) then Err(EmailExists)
    else
      var invalid := Validate(t, cmd, now);
      if invalid.Some? then Err(invalid.value)
      else Ok(ToRegister(Customer(newId, t.trim(cmd.name), t.lower(t.trim(cmd.email)), cmd.birthDate, now, now)))
  }

  function CheckUpdate(t: Text, cs: Customers, id: Uuid, cmd: Command, now: Time, dbDown: bool): Result<Op, Error> {
    if dbDown then Err(Storage)
    else if id !in cs then Err(NotFound)
    else if cs[id].email != cmd.email && EmailUsed(cs, cmd.email) then Err(EmailExists)
    else
      var invalid := Validate(t, cmd, now);
      if invalid.Some? then Err(invalid.value)
      else
        var email := t.lower(t.trim(cmd.email));
        Ok(ToUpdate(cs[id].(name := t.trim(cmd.name), email := email, birthDate := cmd.birthDate, updatedAt := now)))
  }

  function CheckRemove(cs: Customers, id: Uuid, dbDown: bool): Result<Op, Error> {
    if dbDown then Err(Storage) else if id !in cs then Err(NotFound) else Ok(ToRemove(id))
  }

  function EventOf(op: Op): Event {
    match op
    case ToRegister(c) => Registered(c.id, c.email)
    case ToUpdate(c) => Updated(c.id, c.email)
    case ToRemove(id) => Removed(id)
  }

  /**
   The statement each operation runs on the customers table: None when it fails. INSERT obeys the primary
   key and the unique email, UPDATE also needs its row to exist still, DELETE is content to find nothing.
   */
  function Written(cs: Customers, op: Op): Option<Customers> {
    match op
    case ToRegister(c) => if c.id in cs || EmailUsed(cs, c.email) then None else Some(cs[c.id := c])
    case ToUpdate(c) =>
      if c.id !in cs || EmailUsedByOther(cs, c.email, c.id) then None
      else Some(cs[c.id := c.(createdAt := cs[c.id].createdAt)])
    case ToRemove(id) => Some(cs - {id})
  }

  predicate MessageIdUsed(journal: seq<Entry>, messageId: Uuid) {
    exists i :: 0 <= i < |journal| && journal[i].messageId == messageId
  }

  /** The whole transaction, None when it rolls back. */
  function Transacted(db: Db, op: Op, messageId: Uuid): Option<Db> {
    var cs := Written(db.customers, op);
    if cs.None? || MessageIdUsed(db.journal, messageId) then None
    else Some(Db(cs.value, db.journal + [Entry(messageId, EventOf(op))]))
  }

  predicate Commits(fault: TxFault) {
    fault.NoFault? || fault.CommitReplyLost?
  }

  /** The database after the transaction of `op`, whatever happened to it. */
  function AfterTx(db: Db, op: Op, messageId: Uuid, fault: TxFault): Db {
    var done := Transacted(db, op, messageId);
    if Commits(fault) && done.Some? then done.value else db
  }

  /** The database after a write that passed `checked`. */
  function AfterWrite(db: Db, checked: Result<Op, Error>, messageId: Uuid, fault: TxFault): Db {
    if checked.Ok? then AfterTx(db, checked.value, messageId, fault) else db
  }

  // --- What the checks and the statements come to ---------------------------------------

  /** The statements row by row: who may write, and which columns of which rows they leave as they were. */
  lemma WrittenRows(cs: Customers, op: Op, other: Uuid)
    ensures op.ToRegister? ==>
              var c := op.c;
              && (Written(cs, op).Some? <==> c.id !in cs && forall id :: id in cs ==> cs[id].email != c.email)
              && (Written(cs, op).Some? ==> Written(cs, op).value == cs[c.id := c])
    ensures op.ToUpdate? ==>
              var c := op.c;
              && (Written(cs, op).Some? <==>
                  c.id in cs && forall id :: id in cs && id != c.id ==> cs[id].email != c.email)
              && (Written(cs, op).Some? ==>
                    var row := Customer(c.id, c.name, c.email, c.birthDate, cs[c.id].createdAt, c.updatedAt);
                    Written(cs, op).value == cs[c.id := row])
    ensures op.ToRemove? ==>
              && Written(cs, op).Some? && op.id !in Written(cs, op).value
              && (other != op.id ==>
                    (other in Written(cs, op).value <==> other in cs)
                    && (other in cs ==> Written(cs, op).value[other] == cs[other]))
  {
  }

  /** A message id is free exactly when no entry carries it. */
  predicate Fresh(journal: seq<Entry>, messageId: Uuid) {
    forall e :: e in journal ==> e.messageId != messageId
  }

  lemma FreshIff(journal: seq<Entry>, messageId: Uuid)
    ensures Fresh(journal, messageId) <==> !MessageIdUsed(journal, messageId)
  {
  }

  /** What a client may ask for: a name, an email, and a birth date that has come. */
  predicate Acceptable(t: Text, cmd: Command, now: Time) {
    t.trim(cmd.name) != "" && t.trim(cmd.email) != "" && cmd.birthDate <= now
  }

  /** ORDER BY created_at DESC; rows created at the same instant may come in either order. */
  ghost predicate IsListing(cs: seq<Customer>, customers: Customers) {
    && (forall i, k :: 0 <= i < k < |cs| ==> cs[i].createdAt >= cs[k].createdAt && cs[i].id != cs[k].id)
    && (forall c :: c in cs ==> c.id in customers && customers[c.id] == c)
    && (forall id :: id in customers ==> customers[id] in cs)
  }

  class Database {
    var customers: Customers
    var journal: seq<Entry>

    function State(): Db
      reads this
    {
      Db(customers, journal)
    }

    /** Rows are stored under their own id. */
    ghost predicate Valid()
      reads this
    {
      forall id :: id in customers ==> customers[id].id == id
    }

    /** SELECT ... ORDER BY created_at DESC. */
    method Listing() returns (cs: seq<Customer>)
      requires Valid()
      ensures IsListing(cs, customers)
    {
      cs := [];
      var rest := customers.Keys;
      while rest != {}
        invariant rest <= customers.Keys
        invariant forall i, k :: 0 <= i < k < |cs| ==> cs[i].createdAt >= cs[k].createdAt && cs[i].id != cs[k].id
        invariant forall c :: c in cs ==> c.id in customers && customers[c.id] == c && c.id !in rest
        invariant forall id :: id in customers && id !in rest ==> customers[id] in cs
        invariant forall c, id :: c in cs && id in rest ==> c.createdAt >= customers[id].createdAt
        decreases rest
      {
        var id := Newest(rest);
        cs := cs + [customers[id]];
        rest := rest - {id};
      }
    }

    method Newest(ids: set<Uuid>) returns (id: Uuid)
      requires ids != {} && ids <= customers.Keys
      ensures id in ids && forall other :: other in ids ==> customers[other].createdAt <= customers[id].createdAt
    {
      id :| id in ids;
      var rest := ids - {id};
      while rest != {}
        invariant id in ids && rest <= ids
        invariant forall other :: other in ids - rest ==> customers[other].createdAt <= customers[id].createdAt
        decreases rest
      {
        var other :| other in rest;
        if customers[id].createdAt < customers[other].createdAt {
          id := other;
        }
        rest := rest - {other};
      }
    }

    constructor ()
      ensures Valid() && State() == Db(map[], [])
    {
      customers, journal := map[], [];
    }

    /** Begin, write the row, append the outbox row, commit; any failure rolls both writes back. */
    method RunTx(op: Op, messageId: Uuid, fault: TxFault) returns (ok: bool)
      requires Valid()
      modifies this
      ensures Valid() && State() == AfterTx(old(State()), op, messageId, fault)
      ensures ok <==> fault.NoFault? && Transacted(old(State()), op, messageId).Some?
    {
      if fault.BeginFails? || fault.WriteFails? {
        return false;
      }
      var written := Written(customers, op);
      if written.None? || fault.OutboxFails? || MessageIdUsed(journal, messageId) {
        return false;
      }
      if fault.CommitFails? {
        return false;
      }
      customers := written.value;
      journal := journal + [Entry(messageId, EventOf(op))];
      ok := fault.NoFault?;
    }
  }
}
