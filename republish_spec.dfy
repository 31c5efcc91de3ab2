/**
 * Packet construction, and the exact sequence of calls each redelivery
 * flow makes on the session and on the sender, as functions of the input.
 */
module RepublishSpec {
  import opened Messages
  import opened Collaborators

  /** A fresh PUBLISH with the given content; it carries no packet identifier yet. */
  function CreatePublishForQos(topic: string, qos: QosType, message: Payload, retained: bool): PublishMessage
  {
    PublishMessage(retained, topic, qos, message, None)
  }

  function RetainedPublishForQos(topic: string, qos: QosType, message: Payload): PublishMessage
  {
    CreatePublishForQos(topic, qos, message, true)
  }

  function NotRetainedPublishForQos(topic: string, qos: QosType, message: Payload): PublishMessage
  {
    CreatePublishForQos(topic, qos, message, false)
  }

  /** The packet with its identifier replaced (PublishMessage.setMessageID). */
  function SetMessageId(p: PublishMessage, id: Option<PacketId>): PublishMessage
  {
    p.(messageId := id)
  }

  /** One call the engine makes on a collaborator. */
  datatype Event =
    | InFlight(session: ClientSession, guid: Guid, id: Option<PacketId>)  // session.inFlightAckWaiting
    | Sent(session: ClientSession, packet: PublishMessage)                // sender.sendPublish

  /** The in-flight registrations of a trace, in order. */
  ghost function Registrations(t: seq<Event>): seq<(Guid, Option<PacketId>)>
  {
    if t == [] then []
    else (if t[0].InFlight? then [(t[0].guid, t[0].id)] else []) + Registrations(t[1..])
  }

  /** The packets a trace hands to the sender, in order. */
  ghost function Sends(t: seq<Event>): seq<(ClientSession, PublishMessage)>
  {
    if t == [] then []
    else (if t[0].Sent? then [(t[0].session, t[0].packet)] else []) + Sends(t[1..])
  }

  /** How many of `msgs` are QoS 1 or QoS 2. */
  function PacketIdCount(msgs: seq<StoredMessage>): nat
  {
    if msgs == [] then 0
    else PacketIdCount(msgs[..|msgs| - 1]) + (if NeedsPacketId(msgs[|msgs| - 1].qos) then 1 else 0)
  }

  // ---------------------------------------------------------------- retained flow

  /** The identifier publishRetained allocates for `m` while the session counter is `counter`. */
  function RetainedPacketId(m: StoredMessage, counter: PacketId): Option<PacketId>
  {
    if m.qos == MostOne then None else Some(counter)
  }

  function RetainedPacket(m: StoredMessage, counter: PacketId): PublishMessage
  {
    var p := RetainedPublishForQos(m.topic, m.qos, m.payload);
    if p.qos != MostOne then SetMessageId(p, RetainedPacketId(m, counter)) else p
  }

  /** The calls publishRetained makes for one message. */
  ghost function RetainedStep(s: ClientSession, m: StoredMessage, counter: PacketId): seq<Event>
  {
    var id := RetainedPacketId(m, counter);
    (if id.Some? then [InFlight(s, m.guid, id)] else []) + [Sent(s, RetainedPacket(m, counter))]
  }

  /** The calls publishRetained makes for `msgs`, starting with the session counter at `counter`. */
  ghost function RetainedTrace(s: ClientSession, msgs: seq<StoredMessage>, counter: PacketId): seq<Event>
  {
    if msgs == [] then []
    else
      var n := |msgs| - 1;
      RetainedTrace(s, msgs[..n], counter) + RetainedStep(s, msgs[n], counter + PacketIdCount(msgs[..n]))
  }

  /** The in-flight registrations publishRetained makes for `msgs`, starting with the counter at `counter`. */
  ghost function RetainedRegistrations(msgs: seq<StoredMessage>, counter: PacketId): seq<(Guid, Option<PacketId>)>
  {
    if msgs == [] then []
    else
      var n := |msgs| - 1;
      RetainedRegistrations(msgs[..n], counter)
        + (if NeedsPacketId(msgs[n].qos) then [(msgs[n].guid, Some(counter + PacketIdCount(msgs[..n])))] else [])
  }

  /** The packets publishRetained hands to the sender for `msgs`, starting with the counter at `counter`. */
  ghost function RetainedSends(s: ClientSession, msgs: seq<StoredMessage>, counter: PacketId)
    : seq<(ClientSession, PublishMessage)>
  {
    if msgs == [] then []
    else
      var n := |msgs| - 1;
      RetainedSends(s, msgs[..n], counter) + [(s, RetainedPacket(msgs[n], counter + PacketIdCount(msgs[..n])))]
  }

  // ---------------------------------------------------------------- stored flow

  function StoredPacket(m: StoredMessage): PublishMessage
  {
    var p := NotRetainedPublishForQos(m.topic, m.qos, m.payload);
    if p.qos != MostOne then SetMessageId(p, m.messageId) else p
  }

  /** The calls publishStored makes for one message. */
  ghost function StoredStep(s: ClientSession, m: StoredMessage): seq<Event>
  {
    [InFlight(s, m.guid, m.messageId), Sent(s, StoredPacket(m))]
  }

  /** The calls publishStored makes for `msgs`. */
  ghost function StoredTrace(s: ClientSession, msgs: seq<StoredMessage>): seq<Event>
  {
    if msgs == [] then []
    else
      var n := |msgs| - 1;
      StoredTrace(s, msgs[..n]) + StoredStep(s, msgs[n])
  }

  /** The in-flight registrations publishStored makes for `msgs`. */
  ghost function StoredRegistrations(msgs: seq<StoredMessage>): seq<(Guid, Option<PacketId>)>
  {
    if msgs == [] then []
    else
      var n := |msgs| - 1;
      StoredRegistrations(msgs[..n]) + [(msgs[n].guid, msgs[n].messageId)]
  }

  /** The packets publishStored hands to the sender for `msgs`. */
  ghost function StoredSends(s: ClientSession, msgs: seq<StoredMessage>): seq<(ClientSession, PublishMessage)>
  {
    if msgs == [] then []
    else
      var n := |msgs| - 1;
      StoredSends(s, msgs[..n]) + [(s, StoredPacket(msgs[n]))]
  }

  // ---------------------------------------------------------------- ordering

  /** Every packet that carries an identifier comes right after its in-flight registration. */
  ghost predicate RegisteredBeforeSent(t: seq<Event>)
  {
    forall k | 0 <= k < |t| && t[k].Sent? && t[k].packet.messageId.Some? ::
      0 < k && t[k - 1].InFlight? && t[k - 1].session == t[k].session && t[k - 1].id == t[k].packet.messageId
  }

  /** Every packet, whatever its QoS, comes right after an in-flight registration on its session. */
  ghost predicate EverySendRegistered(t: seq<Event>)
  {
    forall k | 0 <= k < |t| && t[k].Sent? ::
      0 < k && t[k - 1].InFlight? && t[k - 1].session == t[k].session
  }
}
