/**
 Cached readers and writers interleaved at every call, with any cache call
 failing, entries disappearing or turning to garbage, and writers that may never
 invalidate: how old an answer can be.
 */
module CacheStaleness {
  import opened Wrappers
  import opened OutboxTable
  import opened PostgresOutbox
  import opened CustomerService
  import opened CustomerCache

  /** The table as committed at an instant. */
  datatype Version = Version(at: Time, customers: Customers)

  /** When the value of an entry was read from the database, and when it was stored. */
  datatype Stamp = Stamp(readAt: Time, storedAt: Time)

  /** A reader past its cache miss, past its database read, and past its Set. */
  datatype Reader =
    | Missed(key: Key)
    | Loaded(key: Key, v: Value, readAt: Time)
    | Stored(key: Key, v: Value, readAt: Time)

  datatype Answer = Answer(key: Key, v: Value, at: Time, readAt: Time)

  datatype State = State(
    now: Time,
    history: seq<Version>,
    entries: Entries,
    stamps: map<Key, Stamp>,
    readers: map<nat, Reader>,
    answers: seq<Answer>)

  datatype Step =
    | Write(customers: Customers)            // any writer commits
    | Forget(key: Key)                       // an invalidation, an eviction
    | Corrupt(key: Key)
    | Get(r: nat, key: Key, down: bool)
    | Load(r: nat, listing: seq<Customer>, dbDown: bool)
    | Store(r: nat, call: Call)
    | Return(r: nat)
    | GiveUp(r: nat)
    | Tick(d: nat)

  function Init(start: Time): State {
    State(start, [Version(start, map[])], map[], map[], map[], [])
  }

  function Current(s: State): Customers {
    if s.history == [] then map[] else s.history[|s.history| - 1].customers
  }

  function TtlOf(key: Key, ttl: Time): Time {
    if key.One? then ttl else ListTtl(ttl)
  }

  ghost function FromDb(s: State, key: Key, listing: seq<Customer>): Result<Value, Error> {
    match key
    case One(id) => Lookup(Current(s), id)
    case All => if IsListing(listing, Current(s)) then Ok(ManyValues(listing)) else Err(Storage)
  }

  ghost function Apply(ttl: Time, s: State, st: Step): State {
    match st
    case Write(customers) => s.(history := s.history + [Version(s.now, customers)])
    case Forget(key) => s.(entries := s.entries - {key})
    case Corrupt(key) => s.(entries := Corrupted(s.entries, key))
    case Get(r, key, down) =>
      if r in s.readers then s
      else if Hit(s.entries, key, s.now, ReadFaults(down, Done, Done)) && key in s.stamps
      then s.(answers := s.answers + [Answer(key, s.entries[key].data.v, s.now, s.stamps[key].readAt)])
      else s.(readers := s.readers[r := Missed(key)])
    case Load(r, listing, dbDown) =>
      if r !in s.readers || !s.readers[r].Missed? then s
      else
        var key := s.readers[r].key;
        var found := if dbDown then Err(Storage) else FromDb(s, key, listing);
        if found.Err? then s.(readers := s.readers - {r})
        else s.(readers := s.readers[r := Loaded(key, found.value, s.now)])
    case Store(r, call) =>
      if r !in s.readers || !s.readers[r].Loaded? then s
      else
        var l := s.readers[r];
        var done := s.(readers := s.readers[r := Stored(l.key, l.v, l.readAt)]);
        if call.Unsent? then done
        else
          var entries := s.entries[l.key := Filled(l.v, s.now, TtlOf(l.key, ttl))];
          done.(entries := entries, stamps := s.stamps[l.key := Stamp(l.readAt, s.now)])
    case Return(r) =>
      if r !in s.readers || !s.readers[r].Stored? then s
      else
        var l := s.readers[r];
        s.(readers := s.readers - {r}, answers := s.answers + [Answer(l.key, l.v, s.now, l.readAt)])
    case GiveUp(r) => s.(readers := s.readers - {r})
    case Tick(d) => s.(now := s.now + d)
  }

  ghost function Exec(ttl: Time, s: State, steps: seq<Step>): State {
    if |steps| == 0 then s else Apply(ttl, Exec(ttl, s, steps[..|steps| - 1]), steps[|steps| - 1])
  }

  ghost function Run(ttl: Time, start: Time, steps: seq<Step>): State {
    Exec(ttl, Init(start), steps)
  }

  // --- The calls as runs ---------------------------------------------------------

  lemma ExecOne(ttl: Time, s: State, st: Step)
    ensures Exec(ttl, s, [st]) == Apply(ttl, s, st)
  {
    assert [st][..0] == [];
  }

  lemma ExecSnoc(ttl: Time, s: State, steps: seq<Step>, st: Step)
    ensures Exec(ttl, s, steps + [st]) == Apply(ttl, Exec(ttl, s, steps), st)
  {
    assert (steps + [st])[..|steps|] == steps;
  }

  /** What an uninterrupted cached read does: a hit is one step, a miss may evict, then loads, stores and returns. */
  ghost function ReadSteps(s: State, r: nat, key: Key, listing: seq<Customer>, dbDown: bool, f: ReadFaults): seq<Step> {
    var get := Get(r, key, f.getDown);
    if Hit(s.entries, key, s.now, f) then [get]
    else
      [get]
      + (if !f.getDown && Live(s.entries, key, s.now) && !f.evict.Unsent? then [Forget(key)] else [])
      + [Load(r, listing, dbDown)] + [Store(r, f.fill)] + [Return(r)]
  }

  /** With nothing in between, the steps of a read do what the contract of the cached query promises. */
  lemma ReadIsRun(ttl: Time, s: State, r: nat, key: Key, listing: seq<Customer>, dbDown: bool, f: ReadFaults)
    requires r !in s.readers && s.entries.Keys <= s.stamps.Keys
    requires key == All ==> IsListing(listing, Current(s))
    ensures var s' := Exec(ttl, s, ReadSteps(s, r, key, listing, dbDown, f));
            var fromDb := if dbDown then Err(Storage) else FromDb(s, key, listing);
            var result := ReadResult(s.entries, key, fromDb, s.now, f);
            && s'.entries == AfterRead(s.entries, key, fromDb, s.now, TtlOf(key, ttl), f)
            && s'.history == s.history && s'.readers == s.readers
            && (result.Ok? ==> exists at: Time :: s'.answers == s.answers + [Answer(key, result.value, s.now, at)])
            && (result.Err? ==> s'.answers == s.answers)
  {
    if Hit(s.entries, key, s.now, f) {
      ExecOne(ttl, s, Get(r, key, f.getDown));
    } else {
      ReadExec(ttl, s, r, key, listing, dbDown, f);
      MissEffect(ttl, s, r, key, f);
      var s2 := AfterMiss(ttl, s, r, key, f);
      hide Hit, Live, IsListing;
      LoadEffect(ttl, s2, r, key, listing, dbDown, f.fill);
    }
  }

  /** With nothing in between, a write that succeeds is its commit and the deletes that get through. */
  lemma WriteIsRun(ttl: Time, s: State, customers: Customers, id: Uuid, f: WriteFaults)
    ensures var deletes := (if f.deleteOne.Unsent? then [] else [Forget(One(id))])
                           + (if f.deleteAll.Unsent? then [] else [Forget(All)]);
            Exec(ttl, s, [Write(customers)] + deletes) ==
            s.(history := s.history + [Version(s.now, customers)], entries := Invalidated(s.entries, id, f))
  {
    var write, one, all := Write(customers), Forget(One(id)), Forget(All);
    ExecOne(ttl, s, write);
    ExecSnoc(ttl, s, [write], one);
    ExecSnoc(ttl, s, [write], all);
    ExecSnoc(ttl, s, [write] + [one], all);
    assert [write] + ([one] + [all]) == [write] + [one] + [all];
    assert [write] + ([] + []) == [write] && [write] + ([one] + []) == [write] + [one];
    assert [write] + ([] + [all]) == [write] + [all];
  }

  /** Entries turn to garbage or disappear, and readers give up, at any time. */
  lemma FaultsHappen(ttl: Time, s: State, key: Key, r: nat, d: nat)
    ensures Apply(ttl, s, Forget(key)) == s.(entries := s.entries - {key})
    ensures key in s.entries ==>
              var s' := Apply(ttl, s, Corrupt(key));
              s' == s.(entries := s'.entries) && s'.entries == s.entries[key := s.entries[key].(data := Garbage)]
    ensures Apply(ttl, s, GiveUp(r)) == s.(readers := s.readers - {r})
    ensures Apply(ttl, s, Tick(d)).now == s.now + d
  {
  }

  ghost function AfterMiss(ttl: Time, s: State, r: nat, key: Key, f: ReadFaults): State {
    var s1 := Apply(ttl, s, Get(r, key, f.getDown));
    if !f.getDown && Live(s.entries, key, s.now) && !f.evict.Unsent? then Apply(ttl, s1, Forget(key)) else s1
  }

  ghost function AfterLoad(ttl: Time, s: State, r: nat, listing: seq<Customer>, dbDown: bool, fill: Call): State {
    Apply(ttl, Apply(ttl, Apply(ttl, s, Load(r, listing, dbDown)), Store(r, fill)), Return(r))
  }

  lemma ReadExec(ttl: Time, s: State, r: nat, key: Key, listing: seq<Customer>, dbDown: bool, f: ReadFaults)
    requires !Hit(s.entries, key, s.now, f)
    ensures Exec(ttl, s, ReadSteps(s, r, key, listing, dbDown, f)) ==
            AfterLoad(ttl, AfterMiss(ttl, s, r, key, f), r, listing, dbDown, f.fill)
  {
    hide Apply;
    var get, load, store := Get(r, key, f.getDown), Load(r, listing, dbDown), Store(r, f.fill);
    var evict := !f.getDown && Live(s.entries, key, s.now) && !f.evict.Unsent?;
    var front := [get] + if evict then [Forget(key)] else [];
    ExecOne(ttl, s, get);
    if evict {
      ExecSnoc(ttl, s, [get], Forget(key));
    } else {
      assert front == [get];
    }
    ExecSnoc(ttl, s, front, load);
    ExecSnoc(ttl, s, front + [load], store);
    ExecSnoc(ttl, s, front + [load] + [store], Return(r));
  }

  lemma MissEffect(ttl: Time, s: State, r: nat, key: Key, f: ReadFaults)
    requires r !in s.readers && !Hit(s.entries, key, s.now, f)
    ensures var evicts := !f.getDown && Live(s.entries, key, s.now) && !f.evict.Unsent?;
            var entries := if evicts then s.entries - {key} else s.entries;
            AfterMiss(ttl, s, r, key, f) == s.(readers := s.readers[r := Missed(key)], entries := entries)
  {
  }

  lemma LoadEffect(ttl: Time, s: State, r: nat, key: Key, listing: seq<Customer>, dbDown: bool, fill: Call)
    requires r in s.readers && s.readers[r] == Missed(key)
    ensures var s' := AfterLoad(ttl, s, r, listing, dbDown, fill);
            var found := if dbDown then Err(Storage) else FromDb(s, key, listing);
            && s'.history == s.history && s'.readers == s.readers - {r}
            && s'.entries == (if found.Ok? && !fill.Unsent?
                              then s.entries[key := Filled(found.value, s.now, TtlOf(key, ttl))]
                              else s.entries)
            && s'.answers == s.answers + if found.Ok? then [Answer(key, found.value, s.now, s.now)] else []
  {
    hide FromDb;
    var found := if dbDown then Err(Storage) else FromDb(s, key, listing);
    var s1 := Apply(ttl, s, Load(r, listing, dbDown));
    if found.Ok? {
      assert s1.readers[r] == Loaded(key, found.value, s.now);
      var s2 := Apply(ttl, s1, Store(r, fill));
      assert s2.readers[r] == Stored(key, found.value, s.now);
    } else {
      assert s1 == s.(readers := s.readers - {r});
    }
    assert s.readers - {r} == s1.readers - {r};
  }

  /** No reader is more than `delay` past its database read before it has stored and returned. */
  ghost predicate Prompt(s: State, delay: Time) {
    forall r :: r in s.readers && !s.readers[r].Missed? ==> s.now <= s.readers[r].readAt + delay
  }

  ghost predicate PromptRun(ttl: Time, start: Time, steps: seq<Step>, delay: Time) {
    |steps| == 0 || (PromptRun(ttl, start, steps[..|steps| - 1], delay) && Prompt(Run(ttl, start, steps), delay))
  }

  // --- What was committed when --------------------------------------------------

  ghost predicate Shows(customers: Customers, key: Key, v: Value) {
    match key
    case One(id) => Lookup(customers, id) == Ok(v)
    case All => v.ManyValues? && IsListing(v.cs, customers)
  }

  /** Version i of the table was in force at instant t; at the instant of a commit both versions were. */
  ghost predicate InForce(history: seq<Version>, i: nat, t: Time) {
    i < |history| && history[i].at <= t && (i + 1 < |history| ==> t <= history[i + 1].at)
  }

  ghost predicate CommittedAt(history: seq<Version>, key: Key, v: Value, t: Time) {
    exists i: nat :: InForce(history, i, t) && Shows(history[i].customers, key, v)
  }

  lemma CommittedLater(history: seq<Version>, key: Key, v: Value, t: Time, next: Version)
    requires CommittedAt(history, key, v, t) && t <= next.at
    ensures CommittedAt(history + [next], key, v, t)
  {
    var i: nat :| InForce(history, i, t) && Shows(history[i].customers, key, v);
    assert InForce(history + [next], i, t);
  }

  ghost predicate ReaderOk(s: State, r: Reader) {
    r.Missed? || (r.readAt <= s.now && CommittedAt(s.history, r.key, r.v, r.readAt))
  }

  ghost predicate EntryOk(ttl: Time, s: State, delay: Time, key: Key, e: CacheEntry, stamp: Stamp) {
    && stamp.readAt <= stamp.storedAt <= s.now && stamp.storedAt <= stamp.readAt + delay
    && (TtlOf(key, ttl) > 0 ==> e.expiresAt == Some(stamp.storedAt + TtlOf(key, ttl)))
    && (e.data.Encoded? ==> CommittedAt(s.history, key, e.data.v, stamp.readAt))
  }

  ghost predicate AnswerOk(ttl: Time, s: State, delay: Time, a: Answer) {
    && CommittedAt(s.history, a.key, a.v, a.readAt)
    && a.readAt <= a.at <= s.now
    && (TtlOf(a.key, ttl) > 0 ==> a.at <= a.readAt + TtlOf(a.key, ttl) + delay)
  }

  ghost predicate Inv(ttl: Time, s: State, delay: Time) {
    && |s.history| > 0 && s.history[|s.history| - 1].at <= s.now
    && (forall r :: r in s.readers ==> ReaderOk(s, s.readers[r]))
    && (forall key :: key in s.entries ==>
                        key in s.stamps && EntryOk(ttl, s, delay, key, s.entries[key], s.stamps[key]))
    && (forall n :: 0 <= n < |s.answers| ==> AnswerOk(ttl, s, delay, s.answers[n]))
  }

  lemma WriteInv(ttl: Time, s: State, delay: Time, customers: Customers)
    requires Inv(ttl, s, delay)
    ensures Inv(ttl, Apply(ttl, s, Write(customers)), delay)
  {
    var next := Version(s.now, customers);
    forall key, v, t | CommittedAt(s.history, key, v, t) && t <= s.now
      ensures CommittedAt(s.history + [next], key, v, t)
    {
      CommittedLater(s.history, key, v, t, next);
    }
  }

  lemma LoadInv(ttl: Time, s: State, delay: Time, st: Step)
    requires Inv(ttl, s, delay) && st.Load?
    ensures Inv(ttl, Apply(ttl, s, st), delay)
  {
    if st.r in s.readers && s.readers[st.r].Missed? {
      var key := s.readers[st.r].key;
      var found := FromDb(s, key, st.listing);
      if found.Ok? {
        assert InForce(s.history, |s.history| - 1, s.now);
        assert Shows(s.history[|s.history| - 1].customers, key, found.value);
      }
    }
  }

  lemma AnswerInv(ttl: Time, s: State, delay: Time, st: Step)
    requires Inv(ttl, s, delay) && Prompt(s, delay) && delay >= 0 && (st.Get? || st.Return?)
    ensures Inv(ttl, Apply(ttl, s, st), delay)
  {
    hide CommittedAt;
  }

  lemma QuietInv(ttl: Time, s: State, delay: Time, st: Step)
    requires Inv(ttl, s, delay) && (st.Forget? || st.Corrupt? || st.GiveUp? || st.Tick?)
    ensures Inv(ttl, Apply(ttl, s, st), delay)
  {
    hide CommittedAt;
  }

  lemma StoreInv(ttl: Time, s: State, delay: Time, st: Step)
    requires Inv(ttl, s, delay) && Prompt(s, delay) && st.Store?
    ensures Inv(ttl, Apply(ttl, s, st), delay)
  {
    hide CommittedAt;
  }

  lemma InvStep(ttl: Time, s: State, delay: Time, st: Step)
    requires Inv(ttl, s, delay) && Prompt(s, delay) && delay >= 0
    ensures Inv(ttl, Apply(ttl, s, st), delay)
  {
    hide Inv, Prompt, Apply;
    match st
    case Write(customers) => WriteInv(ttl, s, delay, customers);
    case Load(_, _, _) => LoadInv(ttl, s, delay, st);
    case Store(_, _) => StoreInv(ttl, s, delay, st);
    case Get(_, _, _) => AnswerInv(ttl, s, delay, st);
    case Return(_) => AnswerInv(ttl, s, delay, st);
    case _ => QuietInv(ttl, s, delay, st);
  }

  lemma {:induction false} InvRun(ttl: Time, start: Time, steps: seq<Step>, delay: Time)
    requires PromptRun(ttl, start, steps, delay) && delay >= 0
    ensures Inv(ttl, Run(ttl, start, steps), delay)
  {
    if |steps| > 0 {
      InvRun(ttl, start, steps[..|steps| - 1], delay);
      assert Prompt(Run(ttl, start, steps[..|steps| - 1]), delay);
      InvStep(ttl, Run(ttl, start, steps[..|steps| - 1]), delay, steps[|steps| - 1]);
    }
  }

  /**
   Every customer or list any reader returned was the committed value at some instant no older than the
   entry's TTL plus the longest time a reader takes from its database read to its return.
   */
  lemma BoundedStaleness(ttl: Time, start: Time, steps: seq<Step>, delay: Time, n: nat)
    requires PromptRun(ttl, start, steps, delay) && delay >= 0
    requires n < |Run(ttl, start, steps).answers|
    requires TtlOf(Run(ttl, start, steps).answers[n].key, ttl) > 0
    ensures var s := Run(ttl, start, steps);
            var a := s.answers[n];
            exists t: Time ::
              a.at - TtlOf(a.key, ttl) - delay <= t <= a.at && CommittedAt(s.history, a.key, a.v, t)
  {
    InvRun(ttl, start, steps, delay);
    var s := Run(ttl, start, steps);
    assert AnswerOk(ttl, s, delay, s.answers[n]);
  }

  // --- A TTL that is not positive ------------------------------------------------

  /**
   Some run whose readers take at most `delay` returns a customer, or a list, that no version in force
   during the last b showed.
   */
  ghost predicate StaleBy(ttl: Time, lists: bool, delay: nat, b: Time) {
    exists start: Time, steps: seq<Step>, n: nat ::
      var s := Run(ttl, start, steps);
      && PromptRun(ttl, start, steps, delay)
      && n < |s.answers| && s.answers[n].key.All? == lists
      && forall t: Time :: s.answers[n].at - b <= t <= s.answers[n].at ==>
                             !CommittedAt(s.history, s.answers[n].key, s.answers[n].v, t)
  }

  const ADA := Customer(0, "Ada", "ada@example.com", 0, 0, 0)
  const NONE: Customers := map[]
  const ONLY_ADA: Customers := map[0 := ADA]

  lemma Snoc(ttl: Time, start: Time, steps: seq<Step>, st: Step)
    ensures Run(ttl, start, steps + [st]) == Apply(ttl, Run(ttl, start, steps), st)
    ensures PromptRun(ttl, start, steps + [st], 0) <==>
            PromptRun(ttl, start, steps, 0) && Prompt(Apply(ttl, Run(ttl, start, steps), st), 0)
  {
    assert (steps + [st])[..|steps|] == steps;
  }

  // A reader fills the record's entry, which never expires.
  lemma FillForever(ttl: Time) returns (steps: seq<Step>, answered: Answer)
    requires ttl <= 0
    ensures PromptRun(ttl, 0, steps, 0)
    ensures Run(ttl, 0, steps) ==
            State(0, [Version(0, NONE), Version(0, ONLY_ADA)],
                  map[One(0) := CacheEntry(Encoded(OneValue(ADA)), None)], map[One(0) := Stamp(0, 0)],
                  map[], [answered])
  {
    var key, v := One(0), OneValue(ADA);
    var s1 := Init(0).(history := [Version(0, NONE), Version(0, ONLY_ADA)]);
    var s2 := s1.(readers := map[0 := Missed(key)]);
    var s3 := s1.(readers := map[0 := Loaded(key, v, 0)]);
    var filled := map[key := Filled(v, 0, ttl)];
    var s4 := s1.(readers := map[0 := Stored(key, v, 0)], entries := filled, stamps := map[key := Stamp(0, 0)]);
    answered := Answer(key, v, 0, 0);
    assert Apply(ttl, Init(0), Write(ONLY_ADA)) == s1;
    assert Apply(ttl, s1, Get(0, key, false)) == s2;
    assert Apply(ttl, s2, Load(0, [], false)) == s3;
    assert Apply(ttl, s3, Store(0, Done)) == s4;
    assert Apply(ttl, s4, Return(0)) == s4.(readers := map[], answers := [answered]);
    hide Apply;
    steps := [];
    Snoc(ttl, 0, steps, Write(ONLY_ADA));
    steps := steps + [Write(ONLY_ADA)];
    Snoc(ttl, 0, steps, Get(0, key, false));
    steps := steps + [Get(0, key, false)];
    Snoc(ttl, 0, steps, Load(0, [], false));
    steps := steps + [Load(0, [], false)];
    Snoc(ttl, 0, steps, Store(0, Done));
    steps := steps + [Store(0, Done)];
    Snoc(ttl, 0, steps, Return(0));
    steps := steps + [Return(0)];
  }

  lemma {:induction false} PromptLonger(ttl: Time, start: Time, steps: seq<Step>, delay: nat)
    requires PromptRun(ttl, start, steps, 0)
    ensures PromptRun(ttl, start, steps, delay)
  {
    if |steps| > 0 {
      PromptLonger(ttl, start, steps[..|steps| - 1], delay);
    }
  }

  lemma StaleWithoutTtl(ttl: Time, delay: nat, b: nat)
    requires ttl <= 0
    ensures StaleBy(ttl, false, delay, b)
  {
    var steps, first := FillForever(ttl);
    var s5 := Run(ttl, 0, steps);
    var s6 := s5.(history := s5.history + [Version(0, NONE)]);
    var s7 := s6.(now := b + 1);
    var last := Answer(One(0), OneValue(ADA), b + 1, 0);
    var s8 := s7.(answers := [first, last]);
    assert Apply(ttl, s5, Write(NONE)) == s6;
    assert Apply(ttl, s6, Tick(b + 1)) == s7;
    assert Apply(ttl, s7, Get(1, One(0), false)) == s8;
    forall t: Time | last.at - b <= t <= last.at
      ensures !CommittedAt(s8.history, last.key, last.v, t)
    {
      assert s8.history == [Version(0, NONE), Version(0, ONLY_ADA), Version(0, NONE)];
    }
    hide Apply, CommittedAt;
    Snoc(ttl, 0, steps, Write(NONE));
    steps := steps + [Write(NONE)];
    Snoc(ttl, 0, steps, Tick(b + 1));
    steps := steps + [Tick(b + 1)];
    Snoc(ttl, 0, steps, Get(1, One(0), false));
    steps := steps + [Get(1, One(0), false)];
    assert Run(ttl, 0, steps).answers[1] == last;
    PromptLonger(ttl, 0, steps, delay);
  }

  // Answers for keys with a positive TTL are never older than it and the delay together.
  lemma NotStale(ttl: Time, lists: bool, delay: nat, b: Time)
    requires b > 0 && (if lists then b == ListTtl(ttl) else b == ttl)
    ensures !StaleBy(ttl, lists, delay, b + delay)
  {
    forall start: Time, steps: seq<Step>, n: nat |
      && PromptRun(ttl, start, steps, delay)
      && n < |Run(ttl, start, steps).answers| && Run(ttl, start, steps).answers[n].key.All? == lists
      ensures var s := Run(ttl, start, steps);
              exists t: Time :: s.answers[n].at - (b + delay) <= t <= s.answers[n].at
                                && CommittedAt(s.history, s.answers[n].key, s.answers[n].v, t)
    {
      BoundedStaleness(ttl, start, steps, delay, n);
    }
  }

  /**
   However prompt the readers, single records have some bound on their age exactly when the configured TTL
   is positive, and then TTL and delay together are one; for lists a fifth of the TTL, or the minute they
   are kept at least, and the delay always are.
   */
  lemma StalenessBoundedIff(ttl: Time, delay: nat)
    ensures (exists b: nat :: !StaleBy(ttl, false, delay, b)) <==> ttl > 0
    ensures ttl > 0 ==> !StaleBy(ttl, false, delay, ttl + delay)
    ensures !StaleBy(ttl, true, delay, (if ttl >= 300_000_000_000 then ttl / 5 else 60_000_000_000) + delay)
  {
    NotStale(ttl, true, delay, ListTtl(ttl));
    if ttl > 0 {
      NotStale(ttl, false, delay, ttl);
      assert !StaleBy(ttl, false, delay, (ttl + delay) as nat);
    } else {
      forall b: nat
        ensures StaleBy(ttl, false, delay, b)
      {
        StaleWithoutTtl(ttl, delay, b);
      }
    }
  }
}
