/** The semantic event store: graph events serialised onto log rows. */
module EventStore {
  import opened Prelude
  import opened Json
  import opened EventLog

  datatype GraphEvent = GraphEvent(
    id: string, eventType: string, payload: Payload,
    actor: string, runId: string, causedBy: string, timestampNs: int)

  /** The JSON library, as the pair of functions the store calls. */
  datatype Codec = Codec(dumps: Payload -> string, loads: string -> Option<Value>)

  /** The dictionary as JSON writes it. */
  function WrittenFields(p: Payload): Payload {
    map k | k in p :: Written(p[k])
  }

  /** Encoding writes a dictionary as JSON does, and only JSON is ever decoded. */
  ghost predicate SpeaksJson(c: Codec) {
    c.loads("") == None
    && (forall p :: c.loads(c.dumps(p)) == Some(Obj(WrittenFields(p))))
    && forall s, v :: c.loads(s) == Some(v) ==> JsonOnly(v)
  }

  function EventToRow(c: Codec, e: GraphEvent): Row {
    Row(e.id, e.runId, e.eventType, c.dumps(e.payload), e.actor, e.causedBy, e.timestampNs)
  }

  /** Undecodable and non-dictionary payloads read back as the empty dictionary. */
  function RowToEvent(c: Codec, r: Row): GraphEvent {
    var payload :=
      if r.payloadJson == "" then map[]
      else match c.loads(r.payloadJson)
        case Some(Obj(p)) => p
        case _ => map[];
    GraphEvent(r.id, r.eventType, payload, r.actor, r.runId, r.causedBy, r.timestampNs)
  }

  function RowsOf(c: Codec, es: seq<GraphEvent>): seq<Row> {
    seq(|es|, i requires 0 <= i < |es| => EventToRow(c, es[i]))
  }

  function EventsOf(c: Codec, rows: seq<Row>): seq<GraphEvent> {
    seq(|rows|, i requires 0 <= i < |rows| => RowToEvent(c, rows[i]))
  }

  /** What the store yields for one run, or for all of them. */
  function Events(c: Codec, rows: seq<Row>, runId: Option<string>): seq<GraphEvent> {
    EventsOf(c, Read(rows, runId))
  }

  /** A row holds the event's own fields, each in its place. */
  lemma RowHolds(c: Codec, e: GraphEvent)
    ensures var r := EventToRow(c, e);
            r.id == e.id && r.runId == e.runId && r.eventType == e.eventType && r.payloadJson == c.dumps(e.payload)
            && r.actor == e.actor && r.causedBy == e.causedBy && r.timestampNs == e.timestampNs
  {
  }

  /** A stored event comes back with its payload as JSON writes it, and otherwise as it went in. */
  lemma RowReadsBack(c: Codec, e: GraphEvent)
    requires SpeaksJson(c)
    ensures RowToEvent(c, EventToRow(c, e)) == e.(payload := WrittenFields(e.payload))
  {
    assert c.loads(c.dumps(e.payload)) == Some(Obj(WrittenFields(e.payload)));
  }

  /** A stored event comes back unchanged exactly when no foreign value occurs in its payload. */
  lemma RowRoundTripIff(c: Codec, e: GraphEvent)
    requires SpeaksJson(c)
    ensures RowToEvent(c, EventToRow(c, e)) == e <==> JsonOnly(Obj(e.payload))
  {
    RowReadsBack(c, e);
    WrittenAsItselfIff(Obj(e.payload));
    assert Written(Obj(e.payload)) == Obj(WrittenFields(e.payload));
  }

  /** Such as a date under the key "at", which comes back as its text. */
  lemma DateReadsBackAsText(c: Codec, e: GraphEvent, text: string)
    requires SpeaksJson(c) && e.payload == map["at" := Foreign(Str(text), true, true)]
    ensures RowToEvent(c, EventToRow(c, e)).payload == map["at" := Str(text)] != e.payload
  {
    RowReadsBack(c, e);
    assert Written(e.payload["at"]) == Written(Str(text)) == Str(text);
    assert WrittenFields(e.payload) == map["at" := Str(text)];
  }

  /** What the store hands out is JSON, so storing it again changes nothing. */
  lemma ReadEventsAreJson(c: Codec, rows: seq<Row>, runId: Option<string>)
    requires SpeaksJson(c)
    ensures forall e :: e in Events(c, rows, runId) ==> JsonOnly(Obj(e.payload))
  {
    forall r: Row ensures JsonOnly(Obj(RowToEvent(c, r).payload)) {
      var loaded := c.loads(r.payloadJson);
      if r.payloadJson != "" && loaded.Some? && loaded.value.Obj? {
        assert loaded == Some(Obj(loaded.value.fields));
      }
    }
  }

  class EventStoreImpl {
    const backend: InMemoryEventLog
    const codec: Codec

    constructor (backend: InMemoryEventLog, codec: Codec)
      ensures this.backend == backend && this.codec == codec
    {
      this.backend, this.codec := backend, codec;
    }

    method Append(event: GraphEvent)
      requires backend.Valid()
      modifies backend
      ensures backend.Valid()
      ensures backend.rows == Appended(old(backend.rows), EventToRow(codec, event))
    {
      backend.AppendRow(EventToRow(codec, event));
    }

    method IterEvents(runId: Option<string>) returns (out: seq<GraphEvent>)
      requires backend.Valid()
      ensures out == Events(codec, backend.rows, runId)
    {
      var rows := backend.IterRows(runId);
      out := EventsOf(codec, rows);
    }
  }
}
