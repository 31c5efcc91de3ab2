# Redelivery engine of the Moquette MQTT broker, modelled in Dafny

`InternalRepublisher` turns stored MQTT messages into outbound PUBLISH packets and redelivers them to one
client session. It has two flows:

* **publishRetained** runs when a client subscribes and retained messages are delivered to it. A QoS 1/2
  message gets a fresh packet identifier from the session. That identifier is registered as in flight
  under the message's guid and then attached to a packet whose retain flag is set. A QoS 0 message gets
  no identifier and no registration.
* **publishStored** runs when a persistent session resumes. Each queued message's own `messageID` is
  registered as in flight under its guid. This happens for every message, whatever its QoS. The packet
  has its retain flag clear. It carries the stored identifier only when its QoS is 1 or 2.

Files:

* `messages.dfy` (module `Messages`): the stored message, the PUBLISH packet, QoS levels, and the rule
  from section 3.3.2.2 of MQTT 3.1.1 that a PUBLISH carries a packet identifier exactly when its QoS is
  1 or 2.
* `collaborators.dfy` (module `Collaborators`): `ClientSession`, holding the packet-identifier counter
  and the log of in-flight registrations, and `PersistentQueueMessageSender`, holding the log of packets
  handed to it. Both stand in for classes whose code is not part of this model. Each is reduced to the
  state the engine's calls change.
* `republish_spec.dfy` (module `RepublishSpec`): packet construction (`CreatePublishForQos`,
  `RetainedPublishForQos`, `NotRetainedPublishForQos`, `SetMessageId`). It also holds the exact sequence
  of calls each flow makes, as functions of the input: `RetainedTrace` and `StoredTrace`, lists of
  `InFlight` and `Sent` events. `Registrations` and `Sends` pick out of a trace what the session and the
  sender receive. `RetainedRegistrations`, `RetainedSends`, `StoredRegistrations` and `StoredSends` define
  the same lists directly, message by message.
* `republish_lemmas.dfy` (module `RepublishProofs`): that the traces and the direct functions agree, and
  the properties of the two flows, proved about both.
* `republisher.dfy` (module `Republisher`): the class `InternalRepublisher`. Its two methods are the
  source's loops. Each method's postconditions equate the new session state and the sender's log with
  the direct functions, and a ghost `trace` of every call made (in the order made) with the trace
  functions, all applied to the inputs and the old counter. The trace is what records that a registration happens *before* the send. The session and
  the sender are separate objects, so their final states alone cannot show that order. Three client
  methods at the end replay three examples: a QoS 0 retained message, a QoS 1 retained message with the
  counter at 5, and a queued QoS 2 message with identifier 42. Each checks its outcome from the contracts
  alone.

Two behaviours of the code a reader should know, and one assumption of the model:

* `publishStored` registers `getMessageID()` for every message, QoS 0 ones included (line 53).
* The model assumes that a stored message's identifier may be absent and that the session and the packet
  accept an absent identifier. The types of `getMessageID`, `inFlightAckWaiting` and `setMessageID` are
  not part of this model, so a registration is a pair `(guid, Option<id>)`. Under that assumption, a
  QoS 1/2 message without an identifier is sent by `publishStored` as a QoS 1/2 packet with no
  identifier. `StoredIdentifiersMatchQos` proves the flow's packets obey section 3.3.2.2 of MQTT 3.1.1 if
  and only if every QoS 1/2 message handed to it already has an identifier. The code does not check this.
* The session's in-flight store is called as `inFlightAckWaiting(guid, id)`. Its semantics (a map, and
  what happens to a reused identifier) are in `ClientSession`, so the model keeps an append-only log of
  the calls.

## Model

| member | source | states |
|---|---|---|
| `Collaborators.ClientSession.NextPacketId` | broker/src/main/java/io/moquette/spi/impl/InternalRepublisher.java:35 | allocating an identifier returns the session counter and advances it by one |
| `Collaborators.ClientSession.InFlightAckWaiting` | broker/src/main/java/io/moquette/spi/impl/InternalRepublisher.java:38 | an in-flight registration appends `(guid, id)` to the session's registrations and changes nothing else |
| `Collaborators.PersistentQueueMessageSender.SendPublish` | broker/src/main/java/io/moquette/spi/impl/InternalRepublisher.java:45 | sending appends `(session, packet)` to the sender's log and changes nothing else |
| `Republisher.InternalRepublisher.constructor` | broker/src/main/java/io/moquette/spi/impl/InternalRepublisher.java:27-30 | the republisher owns a new sender that has sent nothing |
| `Republisher.InternalRepublisher.PublishRetained` | broker/src/main/java/io/moquette/spi/impl/InternalRepublisher.java:32-47 | the counter advances by the number of QoS 1/2 messages; the calls made are exactly `RetainedTrace` from the old counter; the registrations added are `RetainedRegistrations` and the packets sent are `RetainedSends` |
| `Republisher.InternalRepublisher.PublishStored` | broker/src/main/java/io/moquette/spi/impl/InternalRepublisher.java:49-61 | the counter is untouched; the calls made are exactly `StoredTrace`; the registrations added are `StoredRegistrations` and the packets sent are `StoredSends` |
| `RepublishProofs.PublishForQosDelivers` | broker/src/main/java/io/moquette/spi/impl/InternalRepublisher.java:63-78 | `retainedPublishForQos` and `notRetainedPublishForQos` build a packet with the message's topic, QoS and payload, the retain flag set or clear respectively, and no identifier |
| `RepublishProofs.SetMessageIdKeepsContent` | broker/src/main/java/io/moquette/spi/impl/InternalRepublisher.java:43 | setting the identifier gives the packet exactly that identifier, keeps its topic, QoS, payload and retain flag, and is undone by setting the old identifier back (used again at line 57) |
| `RepublishProofs.RetainedStepEffects` | broker/src/main/java/io/moquette/spi/impl/InternalRepublisher.java:35-45 | for one retained message, a QoS 0 message registers nothing and a QoS 1/2 message registers `(guid, counter)`; either way exactly one packet goes to the session |
| `RepublishProofs.StoredStepEffects` | broker/src/main/java/io/moquette/spi/impl/InternalRepublisher.java:50-59 | for one queued message, exactly one registration `(guid, messageID)` is made, whatever the QoS, and exactly one packet goes to the session |
| `RepublishProofs.RetainedTraceRegistrations` | broker/src/main/java/io/moquette/spi/impl/InternalRepublisher.java:33-46 | the registrations the session receives from publishRetained are, in order, the in-flight calls of its call sequence |
| `RepublishProofs.RetainedTraceSends` | broker/src/main/java/io/moquette/spi/impl/InternalRepublisher.java:33-46 | the packets the sender receives from publishRetained are, in order, the send calls of its call sequence |
| `RepublishProofs.StoredTraceRegistrations` | broker/src/main/java/io/moquette/spi/impl/InternalRepublisher.java:50-60 | the registrations the session receives from publishStored are, in order, the in-flight calls of its call sequence |
| `RepublishProofs.StoredTraceSends` | broker/src/main/java/io/moquette/spi/impl/InternalRepublisher.java:50-60 | the packets the sender receives from publishStored are, in order, the send calls of its call sequence |
| `RepublishProofs.PacketIdCountIsCount` | broker/src/main/java/io/moquette/spi/impl/InternalRepublisher.java:35-39 | the amount the counter advances by is the number of input positions whose QoS is not 0 |
| `RepublishProofs.PacketIdCountPrefix` | broker/src/main/java/io/moquette/spi/impl/InternalRepublisher.java:33-35 | identifiers are allocated in input order: a QoS 1/2 message strictly raises the number allocated before every later message |
| `RepublishProofs.RetainedCounts` | broker/src/main/java/io/moquette/spi/impl/InternalRepublisher.java:33-46 | publishRetained sends exactly one packet per input message and makes one registration per QoS 1/2 message |
| `RepublishProofs.RetainedRegistrationCount` | broker/src/main/java/io/moquette/spi/impl/InternalRepublisher.java:35-39 | publishRetained makes one registration per QoS 1/2 message and none for QoS 0 |
| `RepublishProofs.RetainedSendsAt` | broker/src/main/java/io/moquette/spi/impl/InternalRepublisher.java:40-45 | the i-th packet sent goes to the target session, has the retain flag set, and has the i-th message's topic, QoS and payload; it carries identifier `counter + (QoS 1/2 messages before i)` if its QoS is 1 or 2, and no identifier otherwise |
| `RepublishProofs.RetainedRegistrationOf` | broker/src/main/java/io/moquette/spi/impl/InternalRepublisher.java:35-39 | a QoS 1/2 message is registered under its own guid with the same identifier its packet carries |
| `RepublishProofs.RetainedIdsConsecutive` | broker/src/main/java/io/moquette/spi/impl/InternalRepublisher.java:35-38 | the identifiers registered by one call are the old counter, the old counter + 1, and so on, in order |
| `RepublishProofs.RetainedIdsDistinct` | broker/src/main/java/io/moquette/spi/impl/InternalRepublisher.java:33-44 | no two QoS 1/2 packets of one call share an identifier |
| `RepublishProofs.RetainedRegistersBeforeSending` | broker/src/main/java/io/moquette/spi/impl/InternalRepublisher.java:36-45 | every packet carrying an identifier is sent right after that identifier was registered on the same session |
| `RepublishProofs.StoredCounts` | broker/src/main/java/io/moquette/spi/impl/InternalRepublisher.java:50-60 | publishStored sends exactly one packet and makes exactly one registration per input message |
| `RepublishProofs.StoredRegistrationCount` | broker/src/main/java/io/moquette/spi/impl/InternalRepublisher.java:50-53 | publishStored makes exactly one registration per input message, whatever its QoS |
| `RepublishProofs.StoredSendsAt` | broker/src/main/java/io/moquette/spi/impl/InternalRepublisher.java:54-59 | the i-th packet sent goes to the target session, has the retain flag clear, and has the i-th message's topic, QoS and payload; it carries the message's stored identifier if its QoS is 1 or 2, and no identifier otherwise |
| `RepublishProofs.StoredRegistrationsAt` | broker/src/main/java/io/moquette/spi/impl/InternalRepublisher.java:50-53 | the i-th registration is the i-th message's guid with its stored identifier, whatever its QoS |
| `RepublishProofs.StoredTraceAt` | broker/src/main/java/io/moquette/spi/impl/InternalRepublisher.java:50-60 | publishStored makes two calls per message, in input order: the i-th message's registration of its own guid and stored identifier, then the send of its packet |
| `RepublishProofs.StoredRegistersBeforeSending` | broker/src/main/java/io/moquette/spi/impl/InternalRepublisher.java:52-59 | every packet is sent right after a registration on the same session; a packet carrying an identifier comes right after the registration of that same identifier |
| `RepublishProofs.StoredIdentifiersMatchQos` | broker/src/main/java/io/moquette/spi/impl/InternalRepublisher.java:55-58 | every packet sent carries an identifier exactly when its QoS is 1 or 2 if and only if every QoS 1/2 input message has a stored identifier |

`CreatePublishForQos` and its wrappers are modelled as functions of the same names. Where the flows use
them, what they produce is also stated by `RetainedSendsAt` and `StoredSendsAt`.

## Left out

- Logging (`LOG.trace`): no behavioural content.
- The connection-descriptor map and the transport: the map is stored in a field that is never read, and passed to the sender's constructor. Whether the sender transmits live or enqueues durably is the sender's business. The sender is modelled as an append-only log of `(session, packet)`.
- `Collaborators.ClientSession.NextPacketId`: the 16-bit wrap-around of real packet identifiers is not modelled, because `ClientSession` is not part of this model. The counter is an unbounded integer advanced by one.
- `Collaborators.ClientSession.InFlightAckWaiting`: the in-flight store is a log of calls, not a map. So a reused identifier overwriting an earlier entry is not modelled. Nor is the claim that a freshly allocated identifier differs from identifiers already in flight before the call. Both depend on `ClientSession`, which is not part of this model. What is proved is that the identifiers allocated within one call are consecutive and pairwise distinct. That distinctness rests on the unbounded counter: with a 16-bit wrapping counter, one call with more than 65535 QoS 1/2 messages would repeat an identifier.
- `Collaborators.ClientSession.InFlightAckWaiting`: the model assumes the session accepts an absent identifier. If the real method takes a primitive `int`, a null identifier would throw at line 53 and abort the rest of the `publishStored` loop, no packet being built for that message. The missing-identifier case of `StoredIdentifiersMatchQos` would then be one the program never reaches.
- `StoredMessage`'s accessors `getPayload()` (retained flow) and `getMessage()` (stored flow) are both read as the one `payload` field. `StoredMessage` is not part of this model. `ByteBuffer` position and mutability are not modelled; the payload is an immutable byte sequence.
- `QOSType` is modelled with the three MQTT QoS levels; the code only distinguishes QoS 0 from the rest.
- PUBLISH fields the engine does not set (duplicate flag, remaining length, and so on) are not modelled.
- Concurrency: each call is modelled as running alone on its session, as the code does no locking itself.
- Delivery failures: the sender reports none to the engine, so every message is attempted. In the model every send succeeds as an append.
