/**
 * The pieces of the `kafka-go` client both services' publishers use, as
 * values: a writer bound to one topic and its brokers, a message, and what a
 * publisher hands to `WriteMessages`. Sending itself is I/O.
 */
module Kafka {
  import opened WireFormat

  /** A `kafka.Writer`: the topic it is bound to and the broker addresses. */
  datatype Writer = Writer(topic: string, brokers: seq<string>)

  /** A `kafka.Message`: the key bytes (the text of the key) and the value bytes. */
  datatype Message = Message(key: string, value: seq<byte>)

  /** What a publisher hands to `WriteMessages`: the writer it picked and the message. */
  datatype Delivery = Delivery(writer: Writer, message: Message)
}
