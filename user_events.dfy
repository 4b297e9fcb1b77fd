/**
 * The user service's registration publishers. Both send to the single
 * "user-registrations" writer and key the message by the new user's id;
 * the Avro one frames the payload with the schema id registered at start-up.
 */
module UserEvents {
  import opened Wrappers
  import opened WireFormat
  import opened Kafka

  const RegistrationsTopic := "user-registrations"

  /** The JSON publisher: the marshalled event is the value, with no header. */
  class JsonPublisher {
    const writer: Writer

    constructor (brokers: seq<string>)
      ensures writer == Writer(RegistrationsTopic, brokers)
    {
      writer := Writer(RegistrationsTopic, brokers);
    }

    method WriteUserRegistered(userID: string, marshalled: Result<seq<byte>, string>) returns (r: Result<Delivery, string>)
      ensures marshalled.Err? ==> r == Err(marshalled.error)
      ensures marshalled.Ok? ==> r == Ok(Delivery(writer, Message(userID, marshalled.value)))
    {
      if marshalled.Err? {
        return Err(marshalled.error);
      }
      var msg := Message(userID, marshalled.value);
      r := Ok(Delivery(writer, msg));
    }
  }

  /** The Avro publisher: a fixed writer and the id the registry gave the event's subject. */
  class AvroPublisher {
    const writer: Writer
    const schemaID: int

    /**
     * `NewKafkaPublisherAvro` once the registry has answered with
     * `registeredID`. The `brokers` argument is ignored: the writer's only
     * broker is the value `envBroker` of the `KAFKA_BROKER_URL` variable.
     */
    constructor (brokers: seq<string>, envBroker: string, registeredID: int)
      ensures writer == Writer(RegistrationsTopic, [envBroker]) && schemaID == registeredID
    {
      writer := Writer(RegistrationsTopic, [envBroker]);
      schemaID := registeredID;
    }

    method WriteUserRegistered(userID: string, marshalled: Result<array<byte>, string>) returns (r: Result<Delivery, string>)
      ensures marshalled.Err? ==> r == Err(marshalled.error)
      ensures marshalled.Ok? ==> r.Ok? && r.value.writer == writer && r.value.message.key == userID
      ensures marshalled.Ok? ==> r.Ok? && r.value.message.value == Frame(schemaID, marshalled.value[..])
      ensures marshalled.Ok? ==> r.Ok? && Decode(r.value.message.value) == Some((Uint32(schemaID), marshalled.value[..]))
    {
      if marshalled.Err? {
        return Err(marshalled.error);
      }
      var payload := marshalled.value;
      var wire := BuildFrame(schemaID, payload);
      DecodeOfFrame(schemaID, payload[..]);
      r := Ok(Delivery(writer, Message(userID, wire[..])));
    }
  }
}
