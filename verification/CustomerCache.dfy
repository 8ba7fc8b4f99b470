/** Cache-aside reads of customers, and the writes that invalidate them. */
module CustomerCache {
  import opened Wrappers
  import opened OutboxTable
  import opened PostgresOutbox
  import opened CustomerService

  datatype Key = One(id: Uuid) | All

  datatype Value = OneValue(c: Customer) | ManyValues(cs: seq<Customer>)

  /** What a key holds: an encoded value, or bytes that do not decode. */
  datatype Bytes = Encoded(v: Value) | Garbage

  datatype CacheEntry = CacheEntry(data: Bytes, expiresAt: Option<Time>)

  type Entries = map<Key, CacheEntry>

  const MINUTE: Time := 60_000_000_000

  // Go truncates towards zero.
  function Fifth(ttl: Time): Time {
    if ttl >= 0 then ttl / 5 else -(-ttl / 5)
  }

  /** Lists are kept a fifth as long as records, and at least a minute. */
  function ListTtl(ttl: Time): (list: Time)
    ensures ttl < 300_000_000_000 ==> list == 60_000_000_000
    ensures ttl >= 300_000_000_000 ==> 5 * list <= ttl < 5 * list + 5
  {
    if Fifth(ttl) > MINUTE then Fifth(ttl) else MINUTE
  }

  /** A TTL that is not positive means the entry never expires. */
  function Filled(v: Value, now: Time, ttl: Time): CacheEntry {
    CacheEntry(Encoded(v), if ttl > 0 then Some(now + ttl) else None)
  }

  predicate Live(entries: Entries, key: Key, now: Time) {
    key in entries && (entries[key].expiresAt.Some? ==> now < entries[key].expiresAt.value)
  }

  /** An object does not decode into a list, nor a list into an object. */
  predicate Decodes(key: Key, data: Bytes) {
    data.Encoded? && (key.One? <==> data.v.OneValue?)
  }

  /** The failures one cached read can meet. */
  datatype ReadFaults = ReadFaults(getDown: bool, evict: Call, fill: Call)

  /** The read is answered by the cache. */
  predicate Hit(entries: Entries, key: Key, now: Time, f: ReadFaults) {
    !f.getDown && Live(entries, key, now) && Decodes(key, entries[key].data)
  }

  function ReadResult(entries: Entries, key: Key, fromDb: Result<Value, Error>, now: Time, f: ReadFaults)
    : Result<Value, Error>
  {
    if Hit(entries, key, now, f) then Ok(entries[key].data.v) else fromDb
  }

  function AfterRead(entries: Entries, key: Key, fromDb: Result<Value, Error>, now: Time, ttl: Time, f: ReadFaults)
    : Entries
  {
    if Hit(entries, key, now, f) then entries
    else
      var evicted := if !f.getDown && Live(entries, key, now) && !f.evict.Unsent? then entries - {key} else entries;
      if fromDb.Ok? && !f.fill.Unsent? then evicted[key := Filled(fromDb.value, now, ttl)] else evicted
  }

  function Corrupted(entries: Entries, key: Key): Entries {
    if key in entries then entries[key := entries[key].(data := Garbage)] else entries
  }

  function Deleted(entries: Entries, key: Key, call: Call): Entries {
    if call.Unsent? then entries else entries - {key}
  }

  /** The uncached reads. */
  function Lookup(customers: Customers, id: Uuid): Result<Value, Error> {
    if id in customers then Ok(OneValue(customers[id])) else Err(NotFound)
  }

  class Cache {
    var entries: Entries
    var clock: Time

    constructor (start: Time)
      ensures entries == map[] && clock == start
    {
      entries, clock := map[], start;
    }

    method Get(key: Key, down: bool) returns (r: Result<Bytes, bool>)
      ensures r == if down then Err(true) else if Live(entries, key, clock) then Ok(entries[key].data) else Err(false)
    {
      if down {
        return Err(true);
      }
      if key !in entries {
        return Err(false);
      }
      var e := entries[key];
      r := if e.expiresAt.Some? && e.expiresAt.value <= clock then Err(false) else Ok(e.data);
    }

    method Set(key: Key, v: Value, ttl: Time, call: Call)
      modifies `entries
      ensures entries == if call.Unsent? then old(entries) else old(entries)[key := Filled(v, clock, ttl)]
    {
      if !call.Unsent? {
        entries := entries[key := CacheEntry(Encoded(v), if ttl > 0 then Some(clock + ttl) else None)];
      }
    }

    method Delete(key: Key, call: Call) returns (ok: bool)
      modifies `entries
      ensures entries == Deleted(old(entries), key, call) && ok == call.Done?
    {
      if !call.Unsent? {
        entries := entries - {key};
      }
      ok := call.Done?;
    }
  }

  class CachedQueryService {
    const db: Database
    const cache: Cache
    const ttl: Time
    const listTtl: Time

    constructor (db: Database, cache: Cache, ttl: Time)
      ensures this.db == db && this.cache == cache && this.ttl == ttl && listTtl == ListTtl(ttl)
      ensures ttl < 300_000_000_000 ==> listTtl == 60_000_000_000
      ensures ttl >= 300_000_000_000 ==> 5 * listTtl <= ttl < 5 * listTtl + 5
    {
      this.db, this.cache, this.ttl := db, cache, ttl;
      this.listTtl := if Fifth(ttl) > MINUTE then Fifth(ttl) else MINUTE;
    }

    /** Cache, then database, then fill the cache; every cache failure degrades to the database. */
    method GetByID(id: Uuid, dbDown: bool, f: ReadFaults) returns (r: Result<Value, Error>)
      modifies cache`entries
      ensures var fromDb := if dbDown then Err(Storage) else Lookup(db.customers, id);
              && r == ReadResult(old(cache.entries), One(id), fromDb, cache.clock, f)
              && cache.entries == AfterRead(old(cache.entries), One(id), fromDb, cache.clock, ttl, f)
    {
      var got := cache.Get(One(id), f.getDown);
      if got.Ok? {
        if got.value.Encoded? && got.value.v.OneValue? {
          return Ok(got.value.v);
        }
        var _ := cache.Delete(One(id), f.evict);
      }
      if dbDown {
        return Err(Storage);
      }
      if id !in db.customers {
        return Err(NotFound);
      }
      var v := OneValue(db.customers[id]);
      cache.Set(One(id), v, ttl, f.fill);
      r := Ok(v);
    }

    /** `listing` is the order in which the database returned the rows, when it was asked. */
    method List(dbDown: bool, f: ReadFaults) returns (r: Result<Value, Error>, ghost listing: seq<Customer>)
      requires db.Valid()
      modifies cache`entries
      ensures dbDown || Hit(old(cache.entries), All, cache.clock, f) || IsListing(listing, db.customers)
      ensures var fromDb := if dbDown then Err(Storage) else Ok(ManyValues(listing));
              && r == ReadResult(old(cache.entries), All, fromDb, cache.clock, f)
              && cache.entries == AfterRead(old(cache.entries), All, fromDb, cache.clock, listTtl, f)
    {
      var got := cache.Get(All, f.getDown);
      if got.Ok? {
        if got.value.Encoded? && got.value.v.ManyValues? {
          return Ok(got.value.v), [];
        }
        var _ := cache.Delete(All, f.evict);
      }
      if dbDown {
        return Err(Storage), [];
      }
      var rows := db.Listing();
      listing := rows;
      var v := ManyValues(rows);
      cache.Set(All, v, listTtl, f.fill);
      r := Ok(v);
    }
  }

  /** The failures one write can meet. */
  datatype WriteFaults = WriteFaults(dbDown: bool, tx: TxFault, deleteOne: Call, deleteAll: Call, logDown: bool)

  /** The write reports success: nothing failed up to and including the commit. */
  predicate Succeeds(db: Db, checked: Result<Op, Error>, messageId: Uuid, fault: TxFault) {
    checked.Ok? && fault.NoFault? && Transacted(db, checked.value, messageId).Some?
  }

  function Invalidated(entries: Entries, id: Uuid, f: WriteFaults): Entries {
    Deleted(Deleted(entries, One(id), f.deleteOne), All, f.deleteAll)
  }

  function WriteError(checked: Result<Op, Error>): Error {
    if checked.Err? then checked.error else Storage
  }

  /** When a registration succeeds, what it leaves, and which of the checks refused it. */
  lemma RegisterOutcome(t: Text, db: Db, cmd: Command, newId: Uuid, messageId: Uuid, now: Time, dbDown: bool,
                        fault: TxFault)
    ensures var cs, checked := db.customers, CheckRegister(t, db.customers, cmd, newId, now, dbDown);
            var email := t.lower(t.trim(cmd.email));
            var typed := exists id :: id in cs && cs[id].email == cmd.email;
            && (Succeeds(db, checked, messageId, fault) <==>
                && !dbDown && fault.NoFault? && Acceptable(t, cmd, now) && newId !in cs && Fresh(db.journal, messageId)
                && forall id :: id in cs ==> cs[id].email != cmd.email && cs[id].email != email)
            && (Succeeds(db, checked, messageId, fault) ==>
                  AfterWrite(db, checked, messageId, fault) ==
                  Db(cs[newId := Customer(newId, t.trim(cmd.name), email, cmd.birthDate, now, now)],
                     db.journal + [Entry(messageId, Registered(newId, email))]))
            && (checked == Err(EmailExists) <==> !dbDown && typed)
            && (checked == Err(NameRequired) <==> !dbDown && !typed && t.trim(cmd.name) == "")
            && (checked == Err(EmailRequired) <==>
                !dbDown && !typed && t.trim(cmd.name) != "" && t.trim(cmd.email) == "")
            && (checked == Err(InvalidBirthDate) <==>
                !dbDown && !typed && t.trim(cmd.name) != "" && t.trim(cmd.email) != "" && now < cmd.birthDate)
  {
    FreshIff(db.journal, messageId);
  }

  /** The same for an update: every column of the row, and only that row. */
  lemma UpdateOutcome(t: Text, db: Db, id: Uuid, cmd: Command, messageId: Uuid, now: Time, dbDown: bool, fault: TxFault)
    requires id in db.customers ==> db.customers[id].id == id
    ensures var cs, checked := db.customers, CheckUpdate(t, db.customers, id, cmd, now, dbDown);
            var email := t.lower(t.trim(cmd.email));
            var typed := id in cs && cs[id].email != cmd.email
                         && exists other :: other in cs && cs[other].email == cmd.email;
            && (Succeeds(db, checked, messageId, fault) <==>
                && !dbDown && fault.NoFault? && id in cs && !typed && Acceptable(t, cmd, now)
                && Fresh(db.journal, messageId)
                && forall other :: other in cs && other != id ==> cs[other].email != email)
            && (Succeeds(db, checked, messageId, fault) ==>
                  AfterWrite(db, checked, messageId, fault) ==
                  Db(cs[id := Customer(id, t.trim(cmd.name), email, cmd.birthDate, cs[id].createdAt, now)],
                     db.journal + [Entry(messageId, Updated(id, email))]))
            && (checked == Err(NotFound) <==> !dbDown && id !in cs)
            && (checked == Err(EmailExists) <==> !dbDown && typed)
            && (checked == Err(NameRequired) <==> !dbDown && id in cs && !typed && t.trim(cmd.name) == "")
            && (checked == Err(EmailRequired) <==>
                !dbDown && id in cs && !typed && t.trim(cmd.name) != "" && t.trim(cmd.email) == "")
            && (checked == Err(InvalidBirthDate) <==>
                && !dbDown && id in cs && !typed
                && t.trim(cmd.name) != "" && t.trim(cmd.email) != "" && now < cmd.birthDate)
  {
    FreshIff(db.journal, messageId);
  }

  /** The same for a removal. */
  lemma RemoveOutcome(db: Db, id: Uuid, messageId: Uuid, dbDown: bool, fault: TxFault)
    ensures var cs, checked := db.customers, CheckRemove(db.customers, id, dbDown);
            && (Succeeds(db, checked, messageId, fault) <==>
                !dbDown && fault.NoFault? && id in cs && Fresh(db.journal, messageId))
            && (Succeeds(db, checked, messageId, fault) ==>
                  AfterWrite(db, checked, messageId, fault) ==
                  Db(cs - {id}, db.journal + [Entry(messageId, Removed(id))]))
            && (checked == Err(NotFound) <==> !dbDown && id !in cs)
  {
    FreshIff(db.journal, messageId);
  }

  class Service {
    const text: Text
    const db: Database
    const cache: Cache
    // Appended to the event log after the commit, best effort.
    var log: seq<Event>

    constructor (text: Text, db: Database, cache: Cache)
      ensures this.text == text && this.db == db && this.cache == cache && log == []
    {
      this.text, this.db, this.cache, log := text, db, cache, [];
    }

    /** Registration leaves the cache alone, the list included. */
    method Register(cmd: Command, newId: Uuid, messageId: Uuid, now: Time, f: WriteFaults)
      returns (r: Result<Uuid, Error>)
      requires db.Valid()
      modifies this`log, db
      ensures db.Valid()
      ensures r.Ok? ==>
                && !f.dbDown && f.tx.NoFault? && Acceptable(text, cmd, now) && newId !in old(db.customers)
                && (forall id :: id in old(db.customers) ==>
                                   old(db.customers)[id].email !in {cmd.email, text.lower(text.trim(cmd.email))})
                && var email := text.lower(text.trim(cmd.email));
                && var row := Customer(newId, text.trim(cmd.name), email, cmd.birthDate, now, now);
                && db.customers == old(db.customers)[newId := row]
                && db.journal == old(db.journal) + [Entry(messageId, Registered(newId, email))]
      ensures r.Err? && !f.tx.CommitReplyLost? ==> db.State() == old(db.State())
      ensures var checked := CheckRegister(text, old(db.customers), cmd, newId, now, f.dbDown);
              && db.State() == AfterWrite(old(db.State()), checked, messageId, f.tx)
              && r == (if Succeeds(old(db.State()), checked, messageId, f.tx)
                       then Ok(newId) else Err(WriteError(checked)))
              && log == old(log) + if r.Ok? && !f.logDown then [EventOf(checked.value)] else []
    {
      RegisterOutcome(text, db.State(), cmd, newId, messageId, now, f.dbDown, f.tx);
      if f.dbDown {
        return Err(Storage);
      }
      if EmailUsed(db.customers, cmd.email) {
        return Err(EmailExists);
      }
      var invalid := Validate(text, cmd, now);
      if invalid.Some? {
        return Err(invalid.value);
      }
      var c := Customer(newId, text.trim(cmd.name), text.lower(text.trim(cmd.email)), cmd.birthDate, now, now);
      var ok := db.RunTx(ToRegister(c), messageId, f.tx);
      if !ok {
        return Err(Storage);
      }
      AppendEvent(Registered(c.id, c.email), f.logDown);
      r := Ok(newId);
    }

    method Update(id: Uuid, cmd: Command, messageId: Uuid, now: Time, f: WriteFaults) returns (r: Result<(), Error>)
      requires db.Valid()
      modifies this`log, db, cache`entries
      ensures db.Valid()
      ensures r.Ok? ==>
                && !f.dbDown && f.tx.NoFault? && Acceptable(text, cmd, now) && id in old(db.customers)
                && var email, was := text.lower(text.trim(cmd.email)), old(db.customers)[id];
                && (forall other :: other in old(db.customers) && other != id ==>
                                      old(db.customers)[other].email != email)
                && db.customers ==
                   old(db.customers)[id := Customer(id, text.trim(cmd.name), email, cmd.birthDate, was.createdAt, now)]
                && db.journal == old(db.journal) + [Entry(messageId, Updated(id, email))]
      ensures r.Err? && !f.tx.CommitReplyLost? ==> db.State() == old(db.State())
      ensures var checked := CheckUpdate(text, old(db.customers), id, cmd, now, f.dbDown);
              && db.State() == AfterWrite(old(db.State()), checked, messageId, f.tx)
              && r == (if Succeeds(old(db.State()), checked, messageId, f.tx) then Ok(()) else Err(WriteError(checked)))
              && cache.entries == (if r.Ok? then Invalidated(old(cache.entries), id, f) else old(cache.entries))
              && log == old(log) + if r.Ok? && !f.logDown then [EventOf(checked.value)] else []
    {
      UpdateOutcome(text, db.State(), id, cmd, messageId, now, f.dbDown, f.tx);
      if f.dbDown {
        return Err(Storage);
      }
      if id !in db.customers {
        return Err(NotFound);
      }
      var c := db.customers[id];
      if c.email != cmd.email && EmailUsed(db.customers, cmd.email) {
        return Err(EmailExists);
      }
      var invalid := Validate(text, cmd, now);
      if invalid.Some? {
        return Err(invalid.value);
      }
      var email := text.lower(text.trim(cmd.email));
      c := c.(name := text.trim(cmd.name), email := email, birthDate := cmd.birthDate, updatedAt := now);
      var ok := db.RunTx(ToUpdate(c), messageId, f.tx);
      if !ok {
        return Err(Storage);
      }
      Invalidate(id, f);
      AppendEvent(Updated(c.id, c.email), f.logDown);
      r := Ok(());
    }

    method Remove(id: Uuid, messageId: Uuid, f: WriteFaults) returns (r: Result<(), Error>)
      requires db.Valid()
      modifies this`log, db, cache`entries
      ensures db.Valid()
      ensures r.Ok? <==>
              !f.dbDown && f.tx.NoFault? && id in old(db.customers) && Fresh(old(db.journal), messageId)
      ensures r.Ok? ==>
                && db.customers == old(db.customers) - {id}
                && db.journal == old(db.journal) + [Entry(messageId, Removed(id))]
      ensures r.Err? && !f.tx.CommitReplyLost? ==> db.State() == old(db.State())
      ensures var checked := CheckRemove(old(db.customers), id, f.dbDown);
              && db.State() == AfterWrite(old(db.State()), checked, messageId, f.tx)
              && r == (if Succeeds(old(db.State()), checked, messageId, f.tx) then Ok(()) else Err(WriteError(checked)))
              && cache.entries == (if r.Ok? then Invalidated(old(cache.entries), id, f) else old(cache.entries))
      ensures log == old(log) + if r.Ok? && !f.logDown then [Removed(id)] else []
    {
      RemoveOutcome(db.State(), id, messageId, f.dbDown, f.tx);
      if f.dbDown {
        return Err(Storage);
      }
      if id !in db.customers {
        return Err(NotFound);
      }
      var ok := db.RunTx(ToRemove(id), messageId, f.tx);
      if !ok {
        return Err(Storage);
      }
      Invalidate(id, f);
      AppendEvent(Removed(id), f.logDown);
      r := Ok(());
    }

    /** Delete the record's key and the list's; a failed delete is not reported. */
    method Invalidate(id: Uuid, f: WriteFaults)
      modifies cache`entries
      ensures cache.entries == Invalidated(old(cache.entries), id, f)
    {
      var keys := [(One(id), f.deleteOne), (All, f.deleteAll)];
      for i := 0 to 2
        invariant cache.entries == if i == 0 then old(cache.entries)
                                   else if i == 1 then Deleted(old(cache.entries), One(id), f.deleteOne)
                                   else Invalidated(old(cache.entries), id, f)
      {
        var _ := cache.Delete(keys[i].0, keys[i].1);
      }
    }

    method AppendEvent(e: Event, down: bool)
      modifies this`log
      ensures log == old(log) + if down then [] else [e]
    {
      if !down {
        log := log + [e];
      }
    }
  }
}
