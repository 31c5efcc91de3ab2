/**
 * The two collaborators the redelivery engine calls into: the client
 * session (packet-identifier counter and in-flight bookkeeping) and the
 * persistent sender. Their implementations are not part of this model;
 * each is reduced to the state the engine's calls change.
 */
module Collaborators {
  import opened Messages

  /** A client session as the engine sees it. */
  class ClientSession {
    /** The value the next call to NextPacketId hands out. */
    var nextPacketCounter: PacketId
    /** Every in-flight registration made on this session, oldest first. */
    var inFlight: seq<(Guid, Option<PacketId>)>

    constructor (counter: PacketId)
      ensures nextPacketCounter == counter && inFlight == []
    {
      nextPacketCounter := counter;
      inFlight := [];
    }

    /** Allocates a packet identifier: returns the counter and advances it. */
    method NextPacketId() returns (id: PacketId)
      modifies this`nextPacketCounter
      ensures id == old(nextPacketCounter)
      ensures nextPacketCounter == old(nextPacketCounter) + 1
    {
      id := nextPacketCounter;
      nextPacketCounter := nextPacketCounter + 1;
    }

    /** Records that the message `guid` awaits an acknowledgment under `id`. */
    method InFlightAckWaiting(guid: Guid, id: Option<PacketId>)
      modifies this`inFlight
      ensures inFlight == old(inFlight) + [(guid, id)]
    {
      inFlight := inFlight + [(guid, id)];
    }
  }

  /** The delivery sink: every packet handed to it, with its target session. */
  class PersistentQueueMessageSender {
    var sent: seq<(ClientSession, PublishMessage)>

    constructor ()
      ensures sent == []
    {
      sent := [];
    }

    method SendPublish(session: ClientSession, msg: PublishMessage)
      modifies this`sent
      ensures sent == old(sent) + [(session, msg)]
    {
      sent := sent + [(session, msg)];
    }
  }
}
