/** The redelivery engine (InternalRepublisher). */
module Republisher {
  import opened Messages
  import opened Collaborators
  import opened RepublishSpec
  import opened RepublishProofs

  class InternalRepublisher {
    const persistentSender: PersistentQueueMessageSender
    /** Every call made on a session or on the sender, in the order made. */
    ghost var trace: seq<Event>

    constructor ()
      ensures fresh(persistentSender) && persistentSender.sent == [] && trace == []
    {
      persistentSender := new PersistentQueueMessageSender();
      trace := [];
    }

    /** Redelivers retained messages to a session that just subscribed. */
    method PublishRetained(targetSession: ClientSession, messages: seq<StoredMessage>)
      modifies this, targetSession, persistentSender
      ensures targetSession.nextPacketCounter == old(targetSession.nextPacketCounter) + PacketIdCount(messages)
      ensures trace == old(trace) + RetainedTrace(targetSession, messages, old(targetSession.nextPacketCounter))
      ensures targetSession.inFlight
        == old(targetSession.inFlight) + RetainedRegistrations(messages, old(targetSession.nextPacketCounter))
      ensures persistentSender.sent
        == old(persistentSender.sent) + RetainedSends(targetSession, messages, old(targetSession.nextPacketCounter))
    {
      ghost var start := targetSession.nextPacketCounter;
      for i := 0 to |messages|
        invariant targetSession.nextPacketCounter == start + PacketIdCount(messages[..i])
        invariant trace == old(trace) + RetainedTrace(targetSession, messages[..i], start)
        invariant targetSession.inFlight == old(targetSession.inFlight) + RetainedRegistrations(messages[..i], start)
        invariant persistentSender.sent
          == old(persistentSender.sent) + RetainedSends(targetSession, messages[..i], start)
      {
        var storedMsg := messages[i];
        var packetId: Option<PacketId> := None;
        if storedMsg.qos != MostOne {
          var id := targetSession.NextPacketId();
          packetId := Some(id);
        }
        if packetId.Some? {
          targetSession.InFlightAckWaiting(storedMsg.guid, packetId);
          trace := trace + [InFlight(targetSession, storedMsg.guid, packetId)];
        }
        var publishMsg := RetainedPublishForQos(storedMsg.topic, storedMsg.qos, storedMsg.payload);
        // the packet identifier is set only for QoS > 0
        if publishMsg.qos != MostOne {
          publishMsg := SetMessageId(publishMsg, packetId);
        }
        persistentSender.SendPublish(targetSession, publishMsg);
        trace := trace + [Sent(targetSession, publishMsg)];
        RetainedIteration(targetSession, messages, start, i, packetId, publishMsg,
                          old(trace), old(targetSession.inFlight), old(persistentSender.sent),
                          trace, targetSession.inFlight, persistentSender.sent);
      }
      assert messages[..|messages|] == messages;
    }

    /** Redelivers the messages queued for a session that resumes. */
    method PublishStored(clientSession: ClientSession, publishedEvents: seq<StoredMessage>)
      modifies this, clientSession, persistentSender
      ensures clientSession.nextPacketCounter == old(clientSession.nextPacketCounter)
      ensures trace == old(trace) + StoredTrace(clientSession, publishedEvents)
      ensures clientSession.inFlight == old(clientSession.inFlight) + StoredRegistrations(publishedEvents)
      ensures persistentSender.sent == old(persistentSender.sent) + StoredSends(clientSession, publishedEvents)
    {
      for i := 0 to |publishedEvents|
        invariant clientSession.nextPacketCounter == old(clientSession.nextPacketCounter)
        invariant trace == old(trace) + StoredTrace(clientSession, publishedEvents[..i])
        invariant clientSession.inFlight == old(clientSession.inFlight) + StoredRegistrations(publishedEvents[..i])
        invariant persistentSender.sent == old(persistentSender.sent) + StoredSends(clientSession, publishedEvents[..i])
      {
        var pubEvt := publishedEvents[i];
        // put in the flight zone
        clientSession.InFlightAckWaiting(pubEvt.guid, pubEvt.messageId);
        trace := trace + [InFlight(clientSession, pubEvt.guid, pubEvt.messageId)];
        var publishMsg := NotRetainedPublishForQos(pubEvt.topic, pubEvt.qos, pubEvt.payload);
        // the packet identifier is set only for QoS > 0
        if publishMsg.qos != MostOne {
          publishMsg := SetMessageId(publishMsg, pubEvt.messageId);
        }
        persistentSender.SendPublish(clientSession, publishMsg);
        trace := trace + [Sent(clientSession, publishMsg)];
        StoredIteration(clientSession, publishedEvents, i, publishMsg,
                        old(trace), old(clientSession.inFlight), old(persistentSender.sent),
                        trace, clientSession.inFlight, persistentSender.sent);
      }
      assert publishedEvents[..|publishedEvents|] == publishedEvents;
    }
  }

  // Clients: what a caller can conclude from the contracts alone.

  /** A QoS 0 retained message: one packet without identifier, no registration, counter untouched. */
  method RetainedAtMostOnceScenario(counter: PacketId)
  {
    var session := new ClientSession(counter);
    var republisher := new InternalRepublisher();
    var m := StoredMessage("g0", "a/b", MostOne, [0x78], None);
    republisher.PublishRetained(session, [m]);
    assert [m][..0] == [];
    assert session.nextPacketCounter == counter;
    assert session.inFlight == [];
    assert republisher.persistentSender.sent
      == [(session, PublishMessage(true, "a/b", MostOne, [0x78], None))];
  }

  /** A QoS 1 retained message with the counter at 5: identifier 5 registered and sent, counter at 6. */
  method RetainedAtLeastOnceScenario()
  {
    var session := new ClientSession(5);
    var republisher := new InternalRepublisher();
    var m := StoredMessage("g1", "a/b", LeastOne, [0x78], None);
    republisher.PublishRetained(session, [m]);
    assert [m][..0] == [];
    assert session.nextPacketCounter == 6;
    assert session.inFlight == [("g1", Some(5))];
    assert republisher.persistentSender.sent
      == [(session, PublishMessage(true, "a/b", LeastOne, [0x78], Some(5)))];
  }

  /** A queued QoS 2 message with identifier 42: 42 registered and sent, counter untouched. */
  method StoredExactlyOnceScenario(counter: PacketId)
  {
    var session := new ClientSession(counter);
    var republisher := new InternalRepublisher();
    var m := StoredMessage("g2", "c/d", ExactlyOnce, [0x79], Some(42));
    republisher.PublishStored(session, [m]);
    assert [m][..0] == [];
    assert session.nextPacketCounter == counter;
    assert session.inFlight == [("g2", Some(42))];
    assert republisher.persistentSender.sent
      == [(session, PublishMessage(false, "c/d", ExactlyOnce, [0x79], Some(42)))];
  }
}
