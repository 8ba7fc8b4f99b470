/** The publisher of the outbox: one record to the topic, and to the dead-letter topic when that fails. */
module KafkaProducer {
  import opened Wrappers
  import opened OutboxTable
  import opened PostgresOutbox
  import opened EventConsumer

  /** The texts of an id and of a time. */
  datatype Texts = Texts(show: Uuid -> string, format: Time -> string)

  /** The record for a message: keyed by its aggregate, its payload as the value. */
  function RecordOf(t: Texts, msg: Message): Record {
    Record(t.show(msg.aggregateId), msg.payload,
           [Header("event_type", msg.eventType), Header("message_id", t.show(msg.id)),
            Header("occurred_at", t.format(msg.createdAt))])
  }

  function DeadLetterOf(t: Texts, msg: Message, reason: string, now: Time): Record {
    Record(t.show(msg.aggregateId), msg.payload,
           [Header("event_type", msg.eventType), Header("message_id", t.show(msg.id)),
            Header("failure_reason", reason), Header("failed_at", t.format(now))])
  }

  lemma RecordHeaders(t: Texts, msg: Message)
    ensures var r := RecordOf(t, msg);
            && MessageId(r) == t.show(msg.id) && EventType(r) == msg.eventType
            && r.key == t.show(msg.aggregateId) && r.value == msg.payload
            && HeaderValue(r.headers, "occurred_at") == t.format(msg.createdAt)
  {
    var hs := RecordOf(t, msg).headers;
    assert hs[1..] == [hs[1], hs[2]] && hs[1..][1..] == [hs[2]];
    assert hs[0].key[0] == 'e' && hs[1].key[0] == 'm' && hs[2].key[0] == 'o';
    assert HeaderValue(hs, "message_id") == HeaderValue(hs[1..], "message_id");
    assert HeaderValue(hs, "occurred_at") == HeaderValue(hs[1..], "occurred_at");
    assert HeaderValue(hs[1..], "occurred_at") == HeaderValue(hs[1..][1..], "occurred_at");
  }

  class Producer {
    const texts: Texts
    var topic: seq<Record>
    var deadLetters: seq<Record>

    constructor (texts: Texts)
      ensures this.texts == texts && topic == [] && deadLetters == []
    {
      this.texts, topic, deadLetters := texts, [], [];
    }

    /**
     ProduceSync, whose record may be on the topic even when it reports an error, then the dead-letter write.
     A message that reached either in the client's eyes counts as published.
     */
    method Publish(msg: Message, produce: Call, write: Call, reason: string, now: Time) returns (err: Option<string>)
      modifies this
      ensures err.None? <==> produce.Done? || write.Done?
      ensures topic == old(topic) + if produce.Unsent? then [] else [RecordOf(texts, msg)]
      ensures deadLetters == old(deadLetters)
                             + if produce.Done? || write.Unsent? then [] else [DeadLetterOf(texts, msg, reason, now)]
    {
      var key := texts.show(msg.aggregateId);
      var headers := [Header("event_type", msg.eventType), Header("message_id", texts.show(msg.id)),
                      Header("occurred_at", texts.format(msg.createdAt))];
      if !produce.Unsent? {
        topic := topic + [Record(key, msg.payload, headers)];
      }
      if produce.Done? {
        return None;
      }
      err := Write(msg, write, reason, now);
    }

    /** The dead-letter writer. */
    method Write(msg: Message, write: Call, reason: string, now: Time) returns (err: Option<string>)
      modifies this`deadLetters
      ensures err.None? <==> write.Done?
      ensures deadLetters == old(deadLetters) + if write.Unsent? then [] else [DeadLetterOf(texts, msg, reason, now)]
    {
      var key := texts.show(msg.aggregateId);
      var headers := [Header("event_type", msg.eventType), Header("message_id", texts.show(msg.id)),
                      Header("failure_reason", reason), Header("failed_at", texts.format(now))];
      if !write.Unsent? {
        deadLetters := deadLetters + [Record(key, msg.payload, headers)];
      }
      err := if write.Done? then None else Some("dead letter lost");
    }
  }
}
