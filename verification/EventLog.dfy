/** The event log and its "since" query. */
module EventLog {
  import opened Wrappers
  import opened TimestampKey

  datatype LogEvent = LogEvent(id: nat, aggregateId: string, eventType: string, payload: string, occurredAt: Utc)

  predicate ForAggregate(e: LogEvent, aggregate: string) {
    aggregate == "" || e.aggregateId == aggregate
  }

  /** The comparison SQLite makes: a's text sorts before b's. */
  predicate KeyLess(a: Utc, b: Utc) {
    Less(Key(a), Key(b))
  }

  lemma KeyLessTotal(a: Utc, b: Utc)
    ensures !(KeyLess(a, b) && KeyLess(b, a))
    ensures KeyLess(a, b) || KeyLess(b, a) || forall c :: KeyLess(a, c) <==> KeyLess(b, c)
    ensures !KeyLess(a, a)
  {
    LessTotal(Key(a), Key(b));
    LessTotal(Key(a), Key(a));
  }

  lemma KeyLessTransitive(a: Utc, b: Utc, c: Utc)
    requires KeyLess(a, b) && KeyLess(b, c)
    ensures KeyLess(a, c)
  {
    LessTransitive(Key(a), Key(b), Key(c));
  }

  predicate After(e: LogEvent, since: Utc) {
    KeyLess(since, e.occurredAt)
  }

  predicate Matches(e: LogEvent, aggregate: string, since: Utc) {
    ForAggregate(e, aggregate) && After(e, since)
  }

  predicate NotAfter(a: LogEvent, b: LogEvent) {
    !KeyLess(b.occurredAt, a.occurredAt)
  }

  ghost predicate DistinctIds(es: seq<LogEvent>) {
    forall i, k :: 0 <= i < k < |es| ==> es[i].id != es[k].id
  }

  /** WHERE ... ORDER BY occurred_at ASC; equal texts may come in either order. */
  ghost predicate IsFetch(log: seq<LogEvent>, aggregate: string, since: Utc, out: seq<LogEvent>) {
    && (forall e :: e in out <==> e in log && Matches(e, aggregate, since))
    && DistinctIds(out)
    && (forall i, k :: 0 <= i < k < |out| ==> NotAfter(out[i], out[k]))
  }

  predicate UsedId(log: seq<LogEvent>, id: nat) {
    exists i :: 0 <= i < |log| && log[i].id == id
  }

  lemma NotAfterTransitive(a: LogEvent, b: LogEvent, c: LogEvent)
    requires NotAfter(a, b) && NotAfter(b, c)
    ensures NotAfter(a, c)
  {
    var x, y, z := a.occurredAt, b.occurredAt, c.occurredAt;
    if KeyLess(z, x) {
      KeyLessTotal(y, z);
      if KeyLess(y, z) {
        KeyLessTransitive(y, z, x);
      }
    }
  }

  /** `rows` are those of `all` that are not left in `rest`, in order, none after any that is left. */
  ghost predicate Selected(log: seq<LogEvent>, all: set<LogEvent>, rest: set<LogEvent>, rows: seq<LogEvent>) {
    && DistinctIds(log) && (forall e :: e in all ==> e in log)
    && rest <= all && (forall e :: e in rows <==> e in all && e !in rest)
    && DistinctIds(rows)
    && (forall i, k :: 0 <= i < k < |rows| ==> NotAfter(rows[i], rows[k]))
    && (forall a, b :: a in rows && b in rest ==> NotAfter(a, b))
  }

  lemma SelectedStep(log: seq<LogEvent>, all: set<LogEvent>, rest: set<LogEvent>, rows: seq<LogEvent>, e: LogEvent)
    requires Selected(log, all, rest, rows) && e in rest && forall other :: other in rest ==> NotAfter(e, other)
    ensures Selected(log, all, rest - {e}, rows + [e])
  {
    hide KeyLess;
    forall i | 0 <= i < |rows|
      ensures rows[i].id != e.id && NotAfter(rows[i], e)
    {
      assert rows[i] in rows && rows[i] != e;
      if rows[i].id == e.id {
        SameIdSame(log, rows[i], e);
      }
    }
  }

  lemma SameIdSame(log: seq<LogEvent>, a: LogEvent, b: LogEvent)
    requires DistinctIds(log) && a in log && b in log && a.id == b.id
    ensures a == b
  {
  }

  lemma {:induction false} Earliest(es: set<LogEvent>) returns (e: LogEvent)
    requires es != {}
    ensures e in es && forall other :: other in es ==> NotAfter(e, other)
  {
    e :| e in es;
    KeyLessTotal(e.occurredAt, e.occurredAt);
    if es != {e} {
      var first := Earliest(es - {e});
      KeyLessTotal(e.occurredAt, first.occurredAt);
      if !NotAfter(e, first) {
        e := first;
      } else {
        forall other | other in es - {e}
          ensures NotAfter(e, other)
        {
          NotAfterTransitive(e, first, other);
        }
      }
    }
  }

  lemma {:induction false} Selectable(log: seq<LogEvent>, all: set<LogEvent>, rest: set<LogEvent>, rows: seq<LogEvent>)
    returns (out: seq<LogEvent>)
    requires Selected(log, all, rest, rows)
    ensures Selected(log, all, {}, out)
    decreases rest
  {
    out := rows;
    if rest != {} {
      hide KeyLess;
      var e := Earliest(rest);
      SelectedStep(log, all, rest, rows, e);
      out := Selectable(log, all, rest - {e}, rows + [e]);
    }
  }

  /** Whatever the log holds, the query has a result. */
  lemma FetchExists(log: seq<LogEvent>, aggregate: string, since: Utc) returns (out: seq<LogEvent>)
    requires DistinctIds(log)
    ensures IsFetch(log, aggregate, since, out)
  {
    hide KeyLess;
    var all := set e | e in log && Matches(e, aggregate, since);
    out := Selectable(log, all, all, []);
  }

  /** Row number `badRow`, if any, will not parse: is it beyond the rows that were found? */
  predicate Parses(badRow: Option<nat>, found: seq<LogEvent>) {
    badRow.None? || badRow.value >= |found|
  }

  class SqliteStore {
    var log: seq<LogEvent>

    ghost predicate Valid()
      reads this
    {
      DistinctIds(log)
    }

    constructor ()
      ensures Valid() && log == []
    {
      log := [];
    }

    method Append(e: LogEvent, down: bool) returns (ok: bool)
      requires Valid()
      modifies this
      ensures Valid() && (ok <==> !down && forall x :: x in old(log) ==> x.id != e.id)
      ensures log == if ok then old(log) + [e] else old(log)
    {
      ok := !down && !UsedId(log, e.id);
      if ok {
        log := log + [e];
      }
    }

    /** ORDER BY: one that none of the others precedes. */
    method First(es: set<LogEvent>) returns (e: LogEvent)
      requires es != {}
      ensures e in es && forall other :: other in es ==> NotAfter(e, other)
    {
      e :| e in es;
      KeyLessTotal(e.occurredAt, e.occurredAt);
      var rest := es - {e};
      while rest != {}
        invariant e in es && rest <= es
        invariant forall other :: other in es - rest ==> NotAfter(e, other)
        decreases rest
      {
        var other :| other in rest;
        KeyLessTotal(e.occurredAt, other.occurredAt);
        if KeyLess(other.occurredAt, e.occurredAt) {
          forall third | third in es - rest
            ensures NotAfter(other, third)
          {
            NotAfterTransitive(other, e, third);
          }
          e := other;
          KeyLessTotal(e.occurredAt, e.occurredAt);
        }
        rest := rest - {other};
      }
    }

    /** The SELECT. */
    method Query(aggregate: string, since: Utc) returns (rows: seq<LogEvent>)
      requires Valid()
      ensures IsFetch(log, aggregate, since, rows)
    {
      var all := set e | e in log && Matches(e, aggregate, since);
      var rest := all;
      rows := [];
      hide KeyLess;
      while rest != {}
        invariant Selected(log, all, rest, rows)
        decreases rest
      {
        var e := First(rest);
        SelectedStep(log, all, rest, rows, e);
        rows := rows + [e];
        rest := rest - {e};
      }
    }

    /** The query, then the scan of its rows; a row that will not parse fails the whole fetch. */
    method FetchSince(aggregate: string, since: Utc, down: bool, badRow: Option<nat>)
      returns (r: Result<seq<LogEvent>, string>, ghost found: seq<LogEvent>)
      requires Valid()
      ensures !down ==> IsFetch(log, aggregate, since, found)
      ensures r.Ok? <==> !down && Parses(badRow, found)
      ensures r.Ok? ==> r.value == found
      ensures !down ==> forall e :: e in found <==>
                                    && e in log && (aggregate == "" || e.aggregateId == aggregate)
                                    && Less(Key(since), Key(e.occurredAt))
    {
      if down {
        return Err("query"), [];
      }
      var rows := Query(aggregate, since);
      found := rows;
      var events: seq<LogEvent> := [];
      for i := 0 to |rows|
        invariant events == rows[..i] && (badRow.Some? ==> i <= badRow.value)
      {
        if badRow == Some(i) {
          return Err("parse"), found;
        }
        events := events + [rows[i]];
      }
      assert events == rows;
      r := Ok(events);
    }
  }
}
