/** The consumer of customer events: deduplication by message id, dispatch by type, and the middleware in front. */
module EventConsumer {
  import opened Wrappers

  datatype Header = Header(key: string, value: string)

  datatype Record = Record(key: string, value: string, headers: seq<Header>)

  /** The first header with the key, or the empty string. */
  function HeaderValue(headers: seq<Header>, key: string): string {
    if |headers| == 0 then ""
    else if headers[0].key == key then headers[0].value
    else HeaderValue(headers[1..], key)
  }

  function MessageId(r: Record): string {
    HeaderValue(r.headers, "message_id")
  }

  function EventType(r: Record): string {
    HeaderValue(r.headers, "event_type")
  }

  /** The typed handlers. */
  datatype Target = HandleRegistered | HandleUpdated | HandleRemoved

  function TargetOf(eventType: string): Option<Target> {
    if eventType == "CustomerRegistered" then Some(HandleRegistered)
    else if eventType == "CustomerUpdated" then Some(HandleUpdated)
    else if eventType == "CustomerRemoved" then Some(HandleRemoved)
    else None
  }

  predicate Known(eventType: string) {
    TargetOf(eventType).Some?
  }

  /** A call of one of the typed handlers. */
  datatype Dispatch = Dispatch(messageId: string, target: Target, payload: string)

  function Dispatched(r: Record): seq<Dispatch> {
    var target := TargetOf(EventType(r));
    if target.Some? then [Dispatch(MessageId(r), target.value, r.value)] else []
  }

  datatype Seen = Seen(processed: set<string>, dispatched: seq<Dispatch>)

  const NOTHING := Seen({}, [])

  predicate IsNew(h: Seen, r: Record) {
    MessageId(r) != "" && MessageId(r) !in h.processed
  }

  /** What Handle does with one record. An id is remembered even when its type is unknown. */
  function Handled(h: Seen, r: Record): Seen {
    if !IsNew(h, r) then h
    else Seen(h.processed + {MessageId(r)}, h.dispatched + Dispatched(r))
  }

  /** Handle fails only when the typed handler it calls does. */
  predicate Succeeds(h: Seen, r: Record, fails: Record -> bool) {
    IsNew(h, r) && Known(EventType(r)) ==> !fails(r)
  }

  function HandledAll(h: Seen, rs: seq<Record>): Seen {
    if |rs| == 0 then h else Handled(HandledAll(h, rs[..|rs| - 1]), rs[|rs| - 1])
  }

  class EventHandler {
    var processed: set<string>
    ghost var dispatched: seq<Dispatch>
    // The typed handlers, of which only failure matters.
    const fails: Record -> bool

    ghost function State(): Seen
      reads this
    {
      Seen(processed, dispatched)
    }

    constructor (fails: Record -> bool)
      ensures State() == NOTHING && this.fails == fails
    {
      processed, dispatched, this.fails := {}, [], fails;
    }

    method FindHeader(r: Record, key: string) returns (v: string)
      ensures v == HeaderValue(r.headers, key)
    {
      for i := 0 to |r.headers|
        invariant HeaderValue(r.headers, key) == HeaderValue(r.headers[i..], key)
      {
        if r.headers[i].key == key {
          return r.headers[i].value;
        }
      }
      v := "";
    }

    method Handle(r: Record) returns (ok: bool)
      modifies this
      ensures State() == Handled(old(State()), r) && ok == Succeeds(old(State()), r, fails)
    {
      var id := FindHeader(r, "message_id");
      if id == "" {
        return true;
      }
      if id in processed {
        return true;
      }
      processed := processed + {id};
      var eventType := FindHeader(r, "event_type");
      match eventType
      case "CustomerRegistered" =>
        dispatched := dispatched + [Dispatch(id, HandleRegistered, r.value)];
        ok := !fails(r);
      case "CustomerUpdated" =>
        dispatched := dispatched + [Dispatch(id, HandleUpdated, r.value)];
        ok := !fails(r);
      case "CustomerRemoved" =>
        dispatched := dispatched + [Dispatch(id, HandleRemoved, r.value)];
        ok := !fails(r);
      case _ =>
        ok := true;
    }
  }

  // --- Dispatches are the deduplicated stream -------------------------------------

  predicate Occurs(rs: seq<Record>, id: string) {
    exists i :: 0 <= i < |rs| && MessageId(rs[i]) == id
  }

  /** The records that carry an id no earlier record carries. */
  function FirstOccurrences(rs: seq<Record>): seq<Record> {
    if |rs| == 0 then []
    else
      var before, last := rs[..|rs| - 1], rs[|rs| - 1];
      FirstOccurrences(before) + if MessageId(last) == "" || Occurs(before, MessageId(last)) then [] else [last]
  }

  function Dispatches(rs: seq<Record>): seq<Dispatch> {
    if |rs| == 0 then [] else Dispatches(rs[..|rs| - 1]) + Dispatched(rs[|rs| - 1])
  }

  lemma {:induction false} ProcessedAre(rs: seq<Record>, id: string)
    ensures id in HandledAll(NOTHING, rs).processed <==> id != "" && Occurs(rs, id)
  {
    if |rs| > 0 {
      ProcessedAre(rs[..|rs| - 1], id);
      OccursSnoc(rs, id);
    }
  }

  lemma OccursSnoc(rs: seq<Record>, id: string)
    requires |rs| > 0
    ensures Occurs(rs, id) <==> Occurs(rs[..|rs| - 1], id) || MessageId(rs[|rs| - 1]) == id
  {
    if Occurs(rs[..|rs| - 1], id) {
      var i :| 0 <= i < |rs| - 1 && MessageId(rs[..|rs| - 1][i]) == id;
      assert MessageId(rs[i]) == id;
    }
    if Occurs(rs, id) {
      var i :| 0 <= i < |rs| && MessageId(rs[i]) == id;
      assert i < |rs| - 1 ==> MessageId(rs[..|rs| - 1][i]) == id;
    }
  }

  /** Whatever duplicates the stream holds, the dispatches are those of its first occurrences, in order. */
  lemma {:induction false} DispatchIsDedup(rs: seq<Record>)
    ensures HandledAll(NOTHING, rs).dispatched == Dispatches(FirstOccurrences(rs))
  {
    if |rs| > 0 {
      var before, last := rs[..|rs| - 1], rs[|rs| - 1];
      DispatchIsDedup(before);
      ProcessedAre(before, MessageId(last));
      var firsts := FirstOccurrences(before);
      assert FirstOccurrences(rs) == if IsNew(HandledAll(NOTHING, before), last) then firsts + [last] else firsts;
      assert (firsts + [last])[..|firsts + [last]| - 1] == firsts;
    }
  }

  /** Handling r, if it is new, is the call d. */
  predicate DispatchedAs(r: Record, d: Dispatch) {
    Dispatched(r) == [d]
  }

  predicate DispatchedFrom(rs: seq<Record>, d: Dispatch) {
    exists i :: 0 <= i < |rs| && DispatchedAs(rs[i], d)
  }

  lemma DispatchedFromLonger(rs: seq<Record>, d: Dispatch)
    requires |rs| > 0 && DispatchedFrom(rs[..|rs| - 1], d)
    ensures DispatchedFrom(rs, d)
  {
    var i :| 0 <= i < |rs| - 1 && DispatchedAs(rs[..|rs| - 1][i], d);
    assert rs[i] == rs[..|rs| - 1][i];
  }

  ghost predicate Once(h: Seen) {
    && (forall i, k :: 0 <= i < k < |h.dispatched| ==> h.dispatched[i].messageId != h.dispatched[k].messageId)
    && (forall i :: 0 <= i < |h.dispatched| ==> h.dispatched[i].messageId in h.processed)
  }

  ghost predicate AllFrom(rs: seq<Record>, ds: seq<Dispatch>) {
    forall i :: 0 <= i < |ds| ==> DispatchedFrom(rs, ds[i])
  }

  lemma AllFromSnoc(before: seq<Record>, last: Record, h: Seen)
    requires AllFrom(before, h.dispatched)
    ensures AllFrom(before + [last], Handled(h, last).dispatched)
  {
    var rs, ds := before + [last], Handled(h, last).dispatched;
    forall i | 0 <= i < |ds|
      ensures DispatchedFrom(rs, ds[i])
    {
      if i < |h.dispatched| {
        assert rs[..|rs| - 1] == before;
        assert ds[i] == h.dispatched[i];
        DispatchedFromLonger(rs, ds[i]);
      } else {
        assert rs[|before|] == last;
      }
    }
  }

  /** No id is dispatched twice, and each dispatch is of a record of the stream. */
  lemma {:induction false} AtMostOnce(rs: seq<Record>)
    ensures Once(HandledAll(NOTHING, rs))
    ensures AllFrom(rs, HandledAll(NOTHING, rs).dispatched)
  {
    if |rs| > 0 {
      var before, last := rs[..|rs| - 1], rs[|rs| - 1];
      AtMostOnce(before);
      AllFromSnoc(before, last, HandledAll(NOTHING, before));
      assert before + [last] == rs;
    }
  }

  // --- Middleware -------------------------------------------------------------------

  /** WithIdempotency keeps its set for the life of the middleware value; logging and recovery keep nothing. */
  datatype Layer = PassThrough | Idempotency(store: nat)

  datatype Handler = Base | Wrapped(layer: Layer, next: Handler)

  /** The first middleware is outermost. */
  function Nested(mw: seq<Layer>): Handler {
    if |mw| == 0 then Base else Wrapped(mw[0], Nested(mw[1..]))
  }

  method Chain(mw: seq<Layer>) returns (h: Handler)
    ensures h == Nested(mw)
  {
    h := Base;
    var i := |mw|;
    while i > 0
      invariant 0 <= i <= |mw| && h == Nested(mw[i..])
    {
      i := i - 1;
      h := Wrapped(mw[i], h);
    }
  }

  /** The handler's own memory and the sets of the idempotency middlewares. */
  datatype World = World(base: Seen, seen: map<nat, set<string>>)

  function SeenBy(w: World, store: nat): set<string> {
    if store in w.seen then w.seen[store] else {}
  }

  /** One deduplicating layer passes on a record whose id it has not seen, or that has none. */
  predicate Passes(seen: set<string>, r: Record) {
    MessageId(r) == "" || MessageId(r) !in seen
  }

  function Remembered(seen: set<string>, r: Record): set<string> {
    if MessageId(r) == "" then seen else seen + {MessageId(r)}
  }

  class IdempotencyLayer {
    var seen: set<string>

    constructor ()
      ensures seen == {}
    {
      seen := {};
    }

    /** Whether the record goes on to the next handler; one that does not is answered with success. */
    method Admit(r: Record) returns (passes: bool)
      modifies this
      ensures passes == Passes(old(seen), r) && seen == Remembered(old(seen), r)
    {
      var id := HeaderValue(r.headers, "message_id");
      if id == "" {
        return true;
      }
      if id in seen {
        return false;
      }
      seen := seen + {id};
      passes := true;
    }
  }

  datatype Served = Served(world: World, ok: bool)

  function Serve(h: Handler, w: World, r: Record, fails: Record -> bool): Served {
    match h
    case Base => Served(w.(base := Handled(w.base, r)), Succeeds(w.base, r, fails))
    case Wrapped(PassThrough, next) => Serve(next, w, r, fails)
    case Wrapped(Idempotency(store), next) =>
      var seen := SeenBy(w, store);
      if Passes(seen, r) then Serve(next, w.(seen := w.seen[store := Remembered(seen, r)]), r, fails)
      else Served(w, true)
  }

  function ServeAll(h: Handler, w: World, rs: seq<Record>, fails: Record -> bool): Served {
    if |rs| == 0 then Served(w, true)
    else Serve(h, ServeAll(h, w, rs[..|rs| - 1], fails).world, rs[|rs| - 1], fails)
  }

  function Stores(h: Handler): set<nat> {
    match h
    case Base => {}
    case Wrapped(PassThrough, next) => Stores(next)
    case Wrapped(Idempotency(store), next) => {store} + Stores(next)
  }

  predicate NoSharedStore(h: Handler) {
    match h
    case Base => true
    case Wrapped(PassThrough, next) => NoSharedStore(next)
    case Wrapped(Idempotency(store), next) => store !in Stores(next) && NoSharedStore(next)
  }

  /** What a layer has seen, the handler has processed. */
  ghost predicate Covered(h: Handler, w: World) {
    forall store :: store in Stores(h) ==> SeenBy(w, store) <= w.base.processed
  }

  lemma {:induction false} ServeTransparent(h: Handler, w: World, r: Record, fails: Record -> bool)
    requires NoSharedStore(h) && Covered(h, w)
    ensures var s := Serve(h, w, r, fails);
            && s.world.base == Handled(w.base, r) && s.ok == Succeeds(w.base, r, fails)
            && Covered(h, s.world)
            && (forall store :: store !in Stores(h) ==> SeenBy(s.world, store) == SeenBy(w, store))
  {
    match h
    case Base =>
    case Wrapped(PassThrough, next) => ServeTransparent(next, w, r, fails);
    case Wrapped(Idempotency(store), next) =>
      if Passes(SeenBy(w, store), r) {
        var w' := w.(seen := w.seen[store := Remembered(SeenBy(w, store), r)]);
        assert forall other :: other in Stores(next) ==> other in Stores(h) && SeenBy(w', other) == SeenBy(w, other);
        ServeTransparent(next, w', r, fails);
      }
  }

  lemma {:induction false} StreamTransparent(h: Handler, rs: seq<Record>, fails: Record -> bool)
    requires NoSharedStore(h)
    ensures var s := ServeAll(h, World(NOTHING, map[]), rs, fails);
            s.world.base == HandledAll(NOTHING, rs) && Covered(h, s.world)
  {
    if |rs| > 0 {
      StreamTransparent(h, rs[..|rs| - 1], fails);
      ServeTransparent(h, ServeAll(h, World(NOTHING, map[]), rs[..|rs| - 1], fails).world, rs[|rs| - 1], fails);
    }
  }

  /** Serving a stream through h leaves every dispatch and the last record's result as the bare handler has them. */
  ghost predicate Transparent(h: Handler) {
    forall rs: seq<Record>, fails: Record -> bool :: |rs| > 0 ==> AsBare(h, rs, fails)
  }

  ghost predicate AsBare(h: Handler, rs: seq<Record>, fails: Record -> bool)
    requires |rs| > 0
  {
    var s := ServeAll(h, World(NOTHING, map[]), rs, fails);
    && s.world.base == HandledAll(NOTHING, rs)
    && s.ok == Succeeds(HandledAll(NOTHING, rs[..|rs| - 1]), rs[|rs| - 1], fails)
  }

  const SAMPLE := Record("", "", [Header("message_id", "m"), Header("event_type", "CustomerRegistered")])

  // Once a store knows an id, no layer chain over that store lets the id through.
  lemma {:induction false} Blocked(h: Handler, w: World, store: nat, fails: Record -> bool)
    requires store in Stores(h) && MessageId(SAMPLE) in SeenBy(w, store)
    ensures Serve(h, w, SAMPLE, fails).world.base == w.base
  {
    match h
    case Wrapped(PassThrough, next) => Blocked(next, w, store, fails);
    case Wrapped(Idempotency(other), next) =>
      var id := MessageId(SAMPLE);
      if id !in SeenBy(w, other) {
        Blocked(next, w.(seen := w.seen[other := SeenBy(w, other) + {id}]), store, fails);
      }
  }

  lemma {:induction false} SharedBlocks(h: Handler, w: World, fails: Record -> bool)
    requires !NoSharedStore(h)
    ensures Serve(h, w, SAMPLE, fails).world.base == w.base
  {
    match h
    case Wrapped(PassThrough, next) => SharedBlocks(next, w, fails);
    case Wrapped(Idempotency(store), next) =>
      var id := MessageId(SAMPLE);
      if id !in SeenBy(w, store) {
        var w' := w.(seen := w.seen[store := SeenBy(w, store) + {id}]);
        if store in Stores(next) {
          Blocked(next, w', store, fails);
        } else {
          SharedBlocks(next, w', fails);
        }
      }
  }

  /**
   Stacking deduplication, logging and recovery in front of the handler changes no dispatch and no result,
   exactly when no deduplicating middleware value is used twice in the chain.
   */
  lemma TransparentIff(mw: seq<Layer>)
    ensures Transparent(Nested(mw)) <==> NoSharedStore(Nested(mw))
  {
    var h := Nested(mw);
    if NoSharedStore(h) {
      forall rs: seq<Record>, fails: Record -> bool | |rs| > 0
        ensures AsBare(h, rs, fails)
      {
        StreamTransparent(h, rs, fails);
        StreamTransparent(h, rs[..|rs| - 1], fails);
        ServeTransparent(h, ServeAll(h, World(NOTHING, map[]), rs[..|rs| - 1], fails).world, rs[|rs| - 1], fails);
      }
    } else {
      var fails := (r: Record) => false;
      var rs := [SAMPLE];
      SharedBlocks(h, World(NOTHING, map[]), fails);
      assert rs[..0] == [];
      assert HandledAll(NOTHING, rs) == Handled(NOTHING, SAMPLE);
      assert ServeAll(h, World(NOTHING, map[]), rs, fails).world.base == NOTHING;
      assert MessageId(SAMPLE) == "m";
      assert !AsBare(h, rs, fails);
    }
  }
}
