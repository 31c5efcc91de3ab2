/**
 * The values the redelivery engine reads and builds: messages kept by the
 * message store and the outbound MQTT PUBLISH packets made from them.
 */
module Messages {

  datatype Option<T> = None | Some(value: T)

  /** MQTT quality-of-service levels (at most once, at least once, exactly once). */
  datatype QosType = MostOne | LeastOne | ExactlyOnce

  /** Durable identifier of a stored message. */
  type Guid = string

  /** Wire-level packet identifier (the source's nullable Integer is an Option of it). */
  type PacketId = int

  /** Payload bytes, treated as an opaque immutable value. */
  type Payload = seq<bv8>

  /** A message as kept by the store; `messageId` is absent until one was assigned. */
  datatype StoredMessage = StoredMessage(
    guid: Guid,
    topic: string,
    qos: QosType,
    payload: Payload,
    messageId: Option<PacketId>)

  /** An outbound PUBLISH packet. */
  datatype PublishMessage = PublishMessage(
    retainFlag: bool,
    topicName: string,
    qos: QosType,
    payload: Payload,
    messageId: Option<PacketId>)

  /** Only QoS 1 and QoS 2 deliveries are acknowledged and so need a packet identifier. */
  predicate NeedsPacketId(qos: QosType) {
    qos != MostOne
  }

  /**
   * Section 3.3.2.2 of MQTT 3.1.1: a PUBLISH carries a packet identifier
   * exactly when its QoS level is 1 or 2.
   */
  predicate IdentifierMatchesQos(p: PublishMessage) {
    p.messageId.Some? <==> NeedsPacketId(p.qos)
  }

  /** `p` delivers the topic, QoS and payload of `m`, with retain flag `retain`. */
  predicate Delivers(p: PublishMessage, m: StoredMessage, retain: bool) {
    p.retainFlag == retain && p.topicName == m.topic && p.qos == m.qos && p.payload == m.payload
  }
}
