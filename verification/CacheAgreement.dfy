/**
 Requests one after another: a cached read agrees with the database as long as
 an update or removal that commits also gets its two deletes through.
 */
module CacheAgreement {
  import opened Wrappers
  import opened OutboxTable
  import opened PostgresOutbox
  import opened CustomerService
  import opened CustomerCache

  /** `since` is the ids registered since the list entry was last filled. */
  datatype State = State(db: Db, entries: Entries, now: Time, since: set<Uuid>)

  datatype Step =
    | GetOne(id: Uuid, dbDown: bool, fails: ReadFaults)
    | GetAll(listing: seq<Customer>, dbDown: bool, fails: ReadFaults)
    | DoRegister(cmd: Command, newId: Uuid, messageId: Uuid, at: Time, faults: WriteFaults)
    | DoUpdate(id: Uuid, cmd: Command, messageId: Uuid, at: Time, faults: WriteFaults)
    | DoRemove(id: Uuid, messageId: Uuid, faults: WriteFaults)
    | Corrupt(key: Key)
    | Evict(key: Key)
    | Tick(d: nat)

  function OneFromDb(s: State, id: Uuid, dbDown: bool): Result<Value, Error> {
    if dbDown then Err(Storage) else Lookup(s.db.customers, id)
  }

  function AllFromDb(listing: seq<Customer>, dbDown: bool): Result<Value, Error> {
    if dbDown then Err(Storage) else Ok(ManyValues(listing))
  }

  function AfterChange(s: State, checked: Result<Op, Error>, messageId: Uuid, id: Uuid, f: WriteFaults): State {
    var s' := s.(db := AfterWrite(s.db, checked, messageId, f.tx));
    if Succeeds(s.db, checked, messageId, f.tx) then s'.(entries := Invalidated(s.entries, id, f)) else s'
  }

  ghost function Apply(t: Text, ttl: Time, s: State, st: Step): State {
    match st
    case GetOne(id, dbDown, f) =>
      s.(entries := AfterRead(s.entries, One(id), OneFromDb(s, id, dbDown), s.now, ttl, f))
    case GetAll(listing, dbDown, f) =>
      if !IsListing(listing, s.db.customers) then s
      else
        var fromDb := AllFromDb(listing, dbDown);
        var fills := !Hit(s.entries, All, s.now, f) && fromDb.Ok? && !f.fill.Unsent?;
        var entries := AfterRead(s.entries, All, fromDb, s.now, ListTtl(ttl), f);
        s.(entries := entries, since := if fills then {} else s.since)
    case DoRegister(cmd, newId, messageId, at, f) =>
      var db' := AfterWrite(s.db, CheckRegister(t, s.db.customers, cmd, newId, at, f.dbDown), messageId, f.tx);
      s.(db := db', since := s.since + (db'.customers.Keys - s.db.customers.Keys))
    case DoUpdate(id, cmd, messageId, at, f) =>
      AfterChange(s, CheckUpdate(t, s.db.customers, id, cmd, at, f.dbDown), messageId, id, f)
    case DoRemove(id, messageId, f) => AfterChange(s, CheckRemove(s.db.customers, id, f.dbDown), messageId, id, f)
    case Corrupt(key) => s.(entries := Corrupted(s.entries, key))
    case Evict(key) => s.(entries := s.entries - {key})
    case Tick(d) => s.(now := s.now + d)
  }

  ghost function Run(t: Text, ttl: Time, start: Time, steps: seq<Step>): State {
    if |steps| == 0 then State(Db(map[], []), map[], start, {})
    else Apply(t, ttl, Run(t, ttl, start, steps[..|steps| - 1]), steps[|steps| - 1])
  }

  /** The steps are what the contracts of the calls promise. */
  lemma CallsAreSteps(t: Text, ttl: Time, s: State, id: Uuid, cmd: Command, messageId: Uuid, at: Time, f: WriteFaults)
    ensures var s' := Apply(t, ttl, s, DoRegister(cmd, id, messageId, at, f));
            && s'.db == AfterWrite(s.db, CheckRegister(t, s.db.customers, cmd, id, at, f.dbDown), messageId, f.tx)
            && s'.entries == s.entries && s'.now == s.now
    ensures var checked := CheckUpdate(t, s.db.customers, id, cmd, at, f.dbDown);
            var s' := Apply(t, ttl, s, DoUpdate(id, cmd, messageId, at, f));
            && s'.db == AfterWrite(s.db, checked, messageId, f.tx) && s'.now == s.now
            && s'.entries == if Succeeds(s.db, checked, messageId, f.tx)
                             then Invalidated(s.entries, id, f) else s.entries
    ensures var checked := CheckRemove(s.db.customers, id, f.dbDown);
            var s' := Apply(t, ttl, s, DoRemove(id, messageId, f));
            && s'.db == AfterWrite(s.db, checked, messageId, f.tx) && s'.now == s.now
            && s'.entries == if Succeeds(s.db, checked, messageId, f.tx)
                             then Invalidated(s.entries, id, f) else s.entries
  {
  }

  /** Entries turn to garbage or disappear at any time, and time passes. */
  lemma FaultsHappen(t: Text, ttl: Time, s: State, key: Key, d: nat)
    ensures Apply(t, ttl, s, Evict(key)) == s.(entries := s.entries - {key})
    ensures key in s.entries ==>
              var s' := Apply(t, ttl, s, Corrupt(key));
              s' == s.(entries := s'.entries) && s'.entries == s.entries[key := s.entries[key].(data := Garbage)]
    ensures Apply(t, ttl, s, Tick(d)).now == s.now + d
  {
  }

  /** A commit that reports failure has not committed, and the deletes that follow a commit take effect. */
  predicate Reliable(st: Step) {
    (st.DoUpdate? || st.DoRemove?) ==>
      !st.faults.tx.CommitReplyLost? && !st.faults.deleteOne.Unsent? && !st.faults.deleteAll.Unsent?
  }

  ghost function Without(customers: Customers, since: set<Uuid>): Customers {
    customers - since
  }

  ghost predicate KeyedById(customers: Customers) {
    forall id :: id in customers ==> customers[id].id == id
  }

  ghost predicate Agrees(customers: Customers, since: set<Uuid>, key: Key, v: Value) {
    match key
    case One(id) => Lookup(customers, id) == Ok(v)
    case All => v.ManyValues? && IsListing(v.cs, Without(customers, since))
  }

  /** Everything the cache could answer agrees with the table. */
  ghost predicate Coherent(customers: Customers, entries: Entries, since: set<Uuid>) {
    forall key :: key in entries && Decodes(key, entries[key].data) ==>
                    Agrees(customers, since, key, entries[key].data.v)
  }

  ghost predicate Good(s: State) {
    KeyedById(s.db.customers) && Coherent(s.db.customers, s.entries, s.since)
  }

  lemma GetAllGood(t: Text, ttl: Time, s: State, st: Step)
    requires Good(s) && st.GetAll?
    ensures Good(Apply(t, ttl, s, st))
  {
    if IsListing(st.listing, s.db.customers) && AllFromDb(st.listing, st.dbDown).Ok? {
      assert Without(s.db.customers, {}) == s.db.customers;
    }
  }

  lemma RegisterGood(t: Text, ttl: Time, s: State, st: Step)
    requires Good(s) && st.DoRegister?
    ensures Good(Apply(t, ttl, s, st))
  {
    var s' := Apply(t, ttl, s, st);
    assert Without(s'.db.customers, s'.since) == Without(s.db.customers, s.since);
    forall key | key in s'.entries && Decodes(key, s'.entries[key].data)
      ensures Agrees(s'.db.customers, s'.since, key, s'.entries[key].data.v)
    {
      assert Agrees(s.db.customers, s.since, key, s.entries[key].data.v);
    }
  }

  lemma ChangeGood(s: State, checked: Result<Op, Error>, messageId: Uuid, id: Uuid, f: WriteFaults)
    requires Good(s)
    requires checked.Ok? ==> (checked.value.ToUpdate? && checked.value.c.id == id) || checked.value == ToRemove(id)
    requires !f.tx.CommitReplyLost? && !f.deleteOne.Unsent? && !f.deleteAll.Unsent?
    ensures Good(AfterChange(s, checked, messageId, id, f))
  {
    var s' := AfterChange(s, checked, messageId, id, f);
    if Succeeds(s.db, checked, messageId, f.tx) {
      forall key | key in s'.entries && Decodes(key, s'.entries[key].data)
        ensures Agrees(s'.db.customers, s'.since, key, s'.entries[key].data.v)
      {
        assert Agrees(s.db.customers, s.since, key, s.entries[key].data.v);
      }
    }
  }

  lemma GoodStep(t: Text, ttl: Time, s: State, st: Step)
    requires Good(s) && Reliable(st)
    ensures Good(Apply(t, ttl, s, st))
  {
    match st
    case GetAll(_, _, _) => GetAllGood(t, ttl, s, st);
    case DoRegister(_, _, _, _, _) => RegisterGood(t, ttl, s, st);
    case DoUpdate(id, cmd, messageId, at, f) =>
      ChangeGood(s, CheckUpdate(t, s.db.customers, id, cmd, at, f.dbDown), messageId, id, f);
    case DoRemove(id, messageId, f) =>
      ChangeGood(s, CheckRemove(s.db.customers, id, f.dbDown), messageId, id, f);
    case _ =>
  }

  lemma {:induction false} GoodRun(t: Text, ttl: Time, start: Time, steps: seq<Step>)
    requires forall i :: 0 <= i < |steps| ==> Reliable(steps[i])
    ensures Good(Run(t, ttl, start, steps))
  {
    if |steps| > 0 {
      GoodRun(t, ttl, start, steps[..|steps| - 1]);
      GoodStep(t, ttl, Run(t, ttl, start, steps[..|steps| - 1]), steps[|steps| - 1]);
    }
  }

  /**
   After any serial run, whatever reads failed, expired or were corrupted: cached GetByID answers what
   the table holds, and cached List answers the current list, or the current list with the customers
   registered since the entry was filled left out.
   */
  lemma SerialAgreement(t: Text, ttl: Time, start: Time, steps: seq<Step>, id: Uuid, listing: seq<Customer>,
                        f: ReadFaults)
    requires forall i :: 0 <= i < |steps| ==> Reliable(steps[i])
    requires IsListing(listing, Run(t, ttl, start, steps).db.customers)
    ensures var s := Run(t, ttl, start, steps);
            && ReadResult(s.entries, One(id), OneFromDb(s, id, false), s.now, f) == Lookup(s.db.customers, id)
            && var list := ReadResult(s.entries, All, AllFromDb(listing, false), s.now, f);
            && list.Ok? && list.value.ManyValues?
            && (if Hit(s.entries, All, s.now, f)
                then IsListing(list.value.cs, Without(s.db.customers, s.since))
                else list.value.cs == listing)
    ensures var s := Run(t, ttl, start, steps);
            var one := ReadResult(s.entries, One(id), OneFromDb(s, id, true), s.now, f);
            && one == (if Hit(s.entries, One(id), s.now, f) then Lookup(s.db.customers, id) else Err(Storage))
            && (ReadResult(s.entries, All, AllFromDb(listing, true), s.now, f).Err? <==> !Hit(s.entries, All, s.now, f))
  {
    GoodRun(t, ttl, start, steps);
    var s := Run(t, ttl, start, steps);
    assert forall key :: key in s.entries && Decodes(key, s.entries[key].data) ==>
                           Agrees(s.db.customers, s.since, key, s.entries[key].data.v);
  }

  // A value read from the database and stored answers later reads of its key until its TTL has passed.
  lemma FilledThenHit(entries: Entries, key: Key, v: Value, now: Time, ttl: Time, f: ReadFaults,
                      later: Time, g: ReadFaults, fromDb: Result<Value, Error>)
    requires !Hit(entries, key, now, f) && !f.fill.Unsent? && Decodes(key, Encoded(v)) && now <= later && !g.getDown
    ensures var after := AfterRead(entries, key, Ok(v), now, ttl, f);
            && (Hit(after, key, later, g) <==> ttl <= 0 || later < now + ttl)
            && ReadResult(after, key, fromDb, later, g) == (if ttl <= 0 || later < now + ttl then Ok(v) else fromDb)
  {
  }

  /** A corrupted entry is never answered, and a read whose calls get through puts the database's value in its place. */
  lemma CorruptionHeals(entries: Entries, key: Key, v: Value, now: Time, ttl: Time, f: ReadFaults, g: ReadFaults)
    requires Decodes(key, Encoded(v)) && !f.fill.Unsent? && !g.getDown
    ensures var bad := Corrupted(entries, key);
            && ReadResult(bad, key, Ok(v), now, f) == Ok(v)
            && (forall other :: other != key ==> (other in bad <==> other in entries))
            && (forall other :: other != key && other in entries ==> bad[other] == entries[other])
            && ReadResult(AfterRead(bad, key, Ok(v), now, ttl, f), key, Err(Storage), now, g) == Ok(v)
  {
    FilledThenHit(Corrupted(entries, key), key, v, now, ttl, f, now, g, Err(Storage));
  }

  /**
   How long a lost delete shows. A read has just filled the record's entry when an update changes the record
   and its delete does not reach the cache: later reads agree with the table again exactly when the entry
   has expired, so never without a TTL.
   */
  lemma LostDeleteLasts(s: State, ttl: Time, f: ReadFaults, c: Customer, messageId: Uuid, w: WriteFaults,
                        later: Time, g: ReadFaults)
    requires c.id in s.db.customers && !Hit(s.entries, One(c.id), s.now, f) && !f.fill.Unsent?
    requires w.tx.NoFault? && w.deleteOne.Unsent? && Transacted(s.db, ToUpdate(c), messageId).Some?
    requires Transacted(s.db, ToUpdate(c), messageId).value.customers[c.id] != s.db.customers[c.id]
    requires s.now <= later && !g.getDown
    ensures var key, found := One(c.id), OneFromDb(s, c.id, false);
            var read := s.(entries := AfterRead(s.entries, key, found, s.now, ttl, f));
            var s' := AfterChange(read, Ok(ToUpdate(c)), messageId, c.id, w);
            ReadResult(s'.entries, key, OneFromDb(s', c.id, false), later, g) == OneFromDb(s', c.id, false)
            <==> ttl > 0 && s.now + ttl <= later
  {
    var key, v := One(c.id), OneValue(s.db.customers[c.id]);
    var filled := AfterRead(s.entries, key, Ok(v), s.now, ttl, f);
    var s' := AfterChange(s.(entries := filled), Ok(ToUpdate(c)), messageId, c.id, w);
    FilledThenHit(s.entries, key, v, s.now, ttl, f, later, g, OneFromDb(s', c.id, false));
    assert key in filled && s'.entries[key] == filled[key];
  }

  /**
   Both deletes are needed, and no others: after an update that changes the record, the cache agrees with
   the table exactly when neither the record's entry nor a list that shows the record is left in it.
   */
  lemma InvalidationNeededIff(s: State, c: Customer, messageId: Uuid, f: WriteFaults)
    requires Good(s) && f.tx.NoFault? && Transacted(s.db, ToUpdate(c), messageId).Some?
    requires Transacted(s.db, ToUpdate(c), messageId).value.customers[c.id] != s.db.customers[c.id]
    ensures var s' := AfterChange(s, Ok(ToUpdate(c)), messageId, c.id, f);
            var e := s.entries;
            Good(s') <==>
            && (f.deleteOne.Unsent? ==> !(One(c.id) in e && Decodes(One(c.id), e[One(c.id)].data)))
            && (f.deleteAll.Unsent? ==> !(All in e && Decodes(All, e[All].data)) || c.id in s.since)
  {
    var s' := AfterChange(s, Ok(ToUpdate(c)), messageId, c.id, f);
    assert KeyedById(s'.db.customers);
    forall key | key in s.entries && Decodes(key, s.entries[key].data)
      ensures Agrees(s'.db.customers, s.since, key, s.entries[key].data.v) <==>
              key != One(c.id) && (key == All ==> c.id in s.since)
    {
      UpdateShows(s.db.customers, s'.db.customers, s.since, c.id, key, s.entries[key].data.v);
    }
    assert forall key :: key in s'.entries ==> key in s.entries && s'.entries[key] == s.entries[key];
    assert One(c.id) in s'.entries <==> f.deleteOne.Unsent? && One(c.id) in s.entries;
    assert All in s'.entries <==> f.deleteAll.Unsent? && All in s.entries;
  }

  // Which agreeing values a changed record makes disagree.
  lemma UpdateShows(before: Customers, after: Customers, since: set<Uuid>, id: Uuid, key: Key, v: Value)
    requires KeyedById(before) && id in before && id in after
    requires after == before[id := after[id]] && after[id] != before[id]
    requires Agrees(before, since, key, v)
    ensures Agrees(after, since, key, v) <==> key != One(id) && (key == All ==> id in since)
  {
    if key == All {
      if id in since {
        assert Without(after, since) == Without(before, since);
      } else {
        assert id in Without(before, since);
        assert before[id] in v.cs && before[id].id == id;
      }
    }
  }
}
