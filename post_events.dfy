/**
 * The post service's event publishers: the topic and key each event goes to,
 * and the schema-registry frame the Avro publisher wraps the payload in.
 * The generated event types are not part of this model: an event appears as its
 * `UserID` and the outcome of its `Marshal`.
 */
module PostEvents {
  import opened Wrappers
  import opened WireFormat
  import opened Kafka

  const CommentsTopic := "post-comments"
  const LikesTopic := "post-likes"
  const ViewsTopic := "post-views"

  /** The JSON publisher: one writer per topic, messages carry the bare JSON. */
  class JsonPublisher {
    var writers: map<string, Writer>

    constructor ()
      ensures writers == map[]
    {
      writers := map[];
    }

    /** `WithWriter`: registers the writer under its own topic. */
    method WithWriter(writer: Writer)
      modifies this
      ensures writers == old(writers)[writer.topic := writer]
    {
      writers := writers[writer.topic := writer];
    }

    /**
     * `writeEvents`: a marshalling failure is returned as it is; otherwise the
     * marshalled bytes go unchanged to the topic's writer under `key`.
     */
    method WriteEvents(topic: string, key: string, marshalled: Result<seq<byte>, string>) returns (r: Result<Delivery, string>)
      requires topic in writers
      ensures marshalled.Err? ==> r == Err(marshalled.error)
      ensures marshalled.Ok? ==> r == Ok(Delivery(writers[topic], Message(key, marshalled.value)))
    {
      if marshalled.Err? {
        return Err(marshalled.error);
      }
      var msg := Message(key, marshalled.value);
      r := Ok(Delivery(writers[topic], msg));
    }

    method WriteAddedComment(userID: string, marshalled: Result<seq<byte>, string>) returns (r: Result<Delivery, string>)
      requires CommentsTopic in writers
      ensures r.Ok? <==> marshalled.Ok?
      ensures r.Err? ==> r.error == marshalled.error
      ensures r.Ok? ==> r.value.writer == writers[CommentsTopic] && r.value.message.key == userID
                        && r.value.message.value == marshalled.value
    {
      r := WriteEvents(CommentsTopic, userID, marshalled);
    }

    method WriteLikedPost(userID: string, marshalled: Result<seq<byte>, string>) returns (r: Result<Delivery, string>)
      requires LikesTopic in writers
      ensures r.Ok? <==> marshalled.Ok?
      ensures r.Err? ==> r.error == marshalled.error
      ensures r.Ok? ==> r.value.writer == writers[LikesTopic] && r.value.message.key == userID
                        && r.value.message.value == marshalled.value
    {
      r := WriteEvents(LikesTopic, userID, marshalled);
    }

    method WriteViewedPost(userID: string, marshalled: Result<seq<byte>, string>) returns (r: Result<Delivery, string>)
      requires ViewsTopic in writers
      ensures r.Ok? <==> marshalled.Ok?
      ensures r.Err? ==> r.error == marshalled.error
      ensures r.Ok? ==> r.value.writer == writers[ViewsTopic] && r.value.message.key == userID
                        && r.value.message.value == marshalled.value
    {
      r := WriteEvents(ViewsTopic, userID, marshalled);
    }
  }

  /** The Avro publisher: one writer and one registered schema id per topic. */
  class AvroPublisher {
    var writers: map<string, Writer>
    var schemasID: map<string, int>

    constructor ()
      ensures writers == map[] && schemasID == map[]
    {
      writers := map[];
      schemasID := map[];
    }

    /** Go's map lookup `p.schemasID[topic]`: 0 for a topic never registered. */
    function SchemaID(topic: string): (id: int)
      reads this
      ensures topic in schemasID ==> id == schemasID[topic]
      ensures topic !in schemasID ==> id == 0
    {
      if topic in schemasID then schemasID[topic] else 0
    }

    /**
     * The body shared by `WithAddCommentWriter`, `WithLikePostWriter` and
     * `WithViewPostWriter`: the writer and the id the registry returned for the
     * event's subject are both stored under the writer's topic.
     */
    method WithWriter(writer: Writer, registeredID: int)
      modifies this
      ensures writers == old(writers)[writer.topic := writer]
      ensures schemasID == old(schemasID)[writer.topic := registeredID]
    {
      writers := writers[writer.topic := writer];
      writers := writers[writer.topic := writer];
      schemasID := schemasID[writer.topic := registeredID];
    }

    method WithAddCommentWriter(writer: Writer, registeredID: int)
      modifies this
      ensures writers == old(writers)[writer.topic := writer]
      ensures schemasID == old(schemasID)[writer.topic := registeredID]
    {
      WithWriter(writer, registeredID);
    }

    method WithLikePostWriter(writer: Writer, registeredID: int)
      modifies this
      ensures writers == old(writers)[writer.topic := writer]
      ensures schemasID == old(schemasID)[writer.topic := registeredID]
    {
      WithWriter(writer, registeredID);
    }

    method WithViewPostWriter(writer: Writer, registeredID: int)
      modifies this
      ensures writers == old(writers)[writer.topic := writer]
      ensures schemasID == old(schemasID)[writer.topic := registeredID]
    {
      WithWriter(writer, registeredID);
    }

    /**
     * `writeEvent`: a marshalling failure is returned as it is; otherwise the
     * payload is framed with the topic's schema id and sent to the topic's writer.
     */
    method WriteEvent(topic: string, key: string, marshalled: Result<array<byte>, string>) returns (r: Result<Delivery, string>)
      requires topic in writers
      ensures marshalled.Err? ==> r == Err(marshalled.error)
      ensures marshalled.Ok? ==> r.Ok? && r.value.writer == writers[topic] && r.value.message.key == key
      ensures marshalled.Ok? ==> r.Ok? && r.value.message.value == Frame(SchemaID(topic), marshalled.value[..])
      ensures marshalled.Ok? ==> r.Ok? && Decode(r.value.message.value) == Some((Uint32(SchemaID(topic)), marshalled.value[..]))
    {
      if marshalled.Err? {
        return Err(marshalled.error);
      }
      var payload := marshalled.value;
      var wire := BuildFrame(SchemaID(topic), payload);
      DecodeOfFrame(SchemaID(topic), payload[..]);
      r := Ok(Delivery(writers[topic], Message(key, wire[..])));
    }

    method WriteAddedComment(userID: string, marshalled: Result<array<byte>, string>) returns (r: Result<Delivery, string>)
      requires CommentsTopic in writers
      ensures r.Ok? <==> marshalled.Ok?
      ensures r.Err? ==> r.error == marshalled.error
      ensures r.Ok? ==> r.value.writer == writers[CommentsTopic] && r.value.message.key == userID
      ensures r.Ok? ==> r.value.message.value == Frame(SchemaID(CommentsTopic), marshalled.value[..])
    {
      r := WriteEvent(CommentsTopic, userID, marshalled);
    }

    method WriteLikedPost(userID: string, marshalled: Result<array<byte>, string>) returns (r: Result<Delivery, string>)
      requires LikesTopic in writers
      ensures r.Ok? <==> marshalled.Ok?
      ensures r.Err? ==> r.error == marshalled.error
      ensures r.Ok? ==> r.value.writer == writers[LikesTopic] && r.value.message.key == userID
      ensures r.Ok? ==> r.value.message.value == Frame(SchemaID(LikesTopic), marshalled.value[..])
    {
      r := WriteEvent(LikesTopic, userID, marshalled);
    }

    method WriteViewedPost(userID: string, marshalled: Result<array<byte>, string>) returns (r: Result<Delivery, string>)
      requires ViewsTopic in writers
      ensures r.Ok? <==> marshalled.Ok?
      ensures r.Err? ==> r.error == marshalled.error
      ensures r.Ok? ==> r.value.writer == writers[ViewsTopic] && r.value.message.key == userID
      ensures r.Ok? ==> r.value.message.value == Frame(SchemaID(ViewsTopic), marshalled.value[..])
    {
      r := WriteEvent(ViewsTopic, userID, marshalled);
    }
  }

  /** A topic no builder registered is framed with schema id 0. */
  lemma UnregisteredTopicUsesSchemaZero(payload: seq<byte>)
    ensures Frame(0, payload) == [0 as byte, 0, 0, 0, 0] + payload
    ensures Decode(Frame(0, payload)) == Some((0, payload))
  {
    DecodeOfFrame(0, payload);
    assert BigEndian32(0) == [0, 0, 0, 0];
  }
}
