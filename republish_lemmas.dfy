/** What the two redelivery flows guarantee, proved about their calls. */
module RepublishProofs {
  import opened Messages
  import opened Collaborators
  import opened RepublishSpec

  // ---------------------------------------------------------------- packet construction

  /**
   * A packet built for a stored message copies its topic, QoS and payload, has
   * the retain flag the wrapper asks for, and carries no identifier yet.
   */
  lemma PublishForQosDelivers(m: StoredMessage)
    ensures Delivers(RetainedPublishForQos(m.topic, m.qos, m.payload), m, true)
    ensures Delivers(NotRetainedPublishForQos(m.topic, m.qos, m.payload), m, false)
    ensures RetainedPublishForQos(m.topic, m.qos, m.payload).messageId.None?
    ensures NotRetainedPublishForQos(m.topic, m.qos, m.payload).messageId.None?
  {
  }

  /** Setting the identifier changes the identifier and nothing else. */
  lemma SetMessageIdKeepsContent(p: PublishMessage, m: StoredMessage, retain: bool, id: Option<PacketId>)
    ensures SetMessageId(p, id).messageId == id
    ensures Delivers(SetMessageId(p, id), m, retain) <==> Delivers(p, m, retain)
    ensures SetMessageId(SetMessageId(p, id), p.messageId) == p
  {
  }

  // ---------------------------------------------------------------- projections of a trace

  lemma {:induction false} RegistrationsAppend(a: seq<Event>, b: seq<Event>)
    ensures Registrations(a + b) == Registrations(a) + Registrations(b)
  {
    if a == [] {
      assert a + b == b;
    } else {
      var head := if a[0].InFlight? then [(a[0].guid, a[0].id)] else [];
      assert (a + b)[0] == a[0];
      assert (a + b)[1..] == a[1..] + b;
      assert Registrations(a + b) == head + Registrations(a[1..] + b);
      assert Registrations(a) == head + Registrations(a[1..]);
      RegistrationsAppend(a[1..], b);
    }
  }

  lemma {:induction false} SendsAppend(a: seq<Event>, b: seq<Event>)
    ensures Sends(a + b) == Sends(a) + Sends(b)
  {
    if a == [] {
      assert a + b == b;
    } else {
      var head := if a[0].Sent? then [(a[0].session, a[0].packet)] else [];
      assert (a + b)[0] == a[0];
      assert (a + b)[1..] == a[1..] + b;
      assert Sends(a + b) == head + Sends(a[1..] + b);
      assert Sends(a) == head + Sends(a[1..]);
      SendsAppend(a[1..], b);
    }
  }

  /** What one publishRetained step registers and sends. */
  lemma RetainedStepEffects(s: ClientSession, m: StoredMessage, counter: PacketId)
    ensures Registrations(RetainedStep(s, m, counter))
      == if NeedsPacketId(m.qos) then [(m.guid, Some(counter))] else []
    ensures Sends(RetainedStep(s, m, counter)) == [(s, RetainedPacket(m, counter))]
  {
    var p := RetainedPacket(m, counter);
    if NeedsPacketId(m.qos) {
      var t := [InFlight(s, m.guid, Some(counter)), Sent(s, p)];
      assert RetainedStep(s, m, counter) == t;
      assert t[1..] == [Sent(s, p)] && t[1..][1..] == [];
      assert Registrations(t[1..]) == [] && Sends(t[1..]) == [(s, p)];
    } else {
      var t := [Sent(s, p)];
      assert RetainedStep(s, m, counter) == t;
      assert t[1..] == [];
    }
  }

  /** What one publishStored step registers and sends. */
  lemma StoredStepEffects(s: ClientSession, m: StoredMessage)
    ensures Registrations(StoredStep(s, m)) == [(m.guid, m.messageId)]
    ensures Sends(StoredStep(s, m)) == [(s, StoredPacket(m))]
  {
    var p := StoredPacket(m);
    var t := StoredStep(s, m);
    assert t[1..] == [Sent(s, p)] && t[1..][1..] == [];
    assert Registrations(t[1..]) == [] && Sends(t[1..]) == [(s, p)];
  }

  /** The session's registrations are exactly the in-flight calls of publishRetained's trace, in order. */
  lemma {:induction false} RetainedTraceRegistrations(s: ClientSession, msgs: seq<StoredMessage>, counter: PacketId)
    ensures Registrations(RetainedTrace(s, msgs, counter)) == RetainedRegistrations(msgs, counter)
  {
    if msgs != [] {
      var n := |msgs| - 1;
      var c := counter + PacketIdCount(msgs[..n]);
      var before := RetainedTrace(s, msgs[..n], counter);
      var step := RetainedStep(s, msgs[n], c);
      var regs := if NeedsPacketId(msgs[n].qos) then [(msgs[n].guid, Some(c))] else [];
      calc {
        Registrations(RetainedTrace(s, msgs, counter));
        { assert RetainedTrace(s, msgs, counter) == before + step; }
        Registrations(before + step);
        { RegistrationsAppend(before, step); }
        Registrations(before) + Registrations(step);
        { RetainedTraceRegistrations(s, msgs[..n], counter); RetainedStepEffects(s, msgs[n], c); }
        RetainedRegistrations(msgs[..n], counter) + regs;
        RetainedRegistrations(msgs, counter);
      }
    }
  }

  /** The sender's packets are exactly the send calls of publishRetained's trace, in order. */
  lemma {:induction false} RetainedTraceSends(s: ClientSession, msgs: seq<StoredMessage>, counter: PacketId)
    ensures Sends(RetainedTrace(s, msgs, counter)) == RetainedSends(s, msgs, counter)
  {
    if msgs != [] {
      var n := |msgs| - 1;
      var c := counter + PacketIdCount(msgs[..n]);
      var before := RetainedTrace(s, msgs[..n], counter);
      var step := RetainedStep(s, msgs[n], c);
      calc {
        Sends(RetainedTrace(s, msgs, counter));
        { assert RetainedTrace(s, msgs, counter) == before + step; }
        Sends(before + step);
        { SendsAppend(before, step); }
        Sends(before) + Sends(step);
        { RetainedTraceSends(s, msgs[..n], counter); RetainedStepEffects(s, msgs[n], c); }
        RetainedSends(s, msgs[..n], counter) + [(s, RetainedPacket(msgs[n], c))];
        RetainedSends(s, msgs, counter);
      }
    }
  }

  /** The session's registrations are exactly the in-flight calls of publishStored's trace, in order. */
  lemma {:induction false} StoredTraceRegistrations(s: ClientSession, msgs: seq<StoredMessage>)
    ensures Registrations(StoredTrace(s, msgs)) == StoredRegistrations(msgs)
  {
    if msgs != [] {
      var n := |msgs| - 1;
      var before := StoredTrace(s, msgs[..n]);
      var step := StoredStep(s, msgs[n]);
      calc {
        Registrations(StoredTrace(s, msgs));
        { assert StoredTrace(s, msgs) == before + step; }
        Registrations(before + step);
        { RegistrationsAppend(before, step); }
        Registrations(before) + Registrations(step);
        { StoredTraceRegistrations(s, msgs[..n]); StoredStepEffects(s, msgs[n]); }
        StoredRegistrations(msgs[..n]) + [(msgs[n].guid, msgs[n].messageId)];
        StoredRegistrations(msgs);
      }
    }
  }

  /** The sender's packets are exactly the send calls of publishStored's trace, in order. */
  lemma {:induction false} StoredTraceSends(s: ClientSession, msgs: seq<StoredMessage>)
    ensures Sends(StoredTrace(s, msgs)) == StoredSends(s, msgs)
  {
    if msgs != [] {
      var n := |msgs| - 1;
      var before := StoredTrace(s, msgs[..n]);
      var step := StoredStep(s, msgs[n]);
      calc {
        Sends(StoredTrace(s, msgs));
        { assert StoredTrace(s, msgs) == before + step; }
        Sends(before + step);
        { SendsAppend(before, step); }
        Sends(before) + Sends(step);
        { StoredTraceSends(s, msgs[..n]); StoredStepEffects(s, msgs[n]); }
        StoredSends(s, msgs[..n]) + [(s, StoredPacket(msgs[n]))];
        StoredSends(s, msgs);
      }
    }
  }

  // ---------------------------------------------------------------- loop steps

  /** The calls of one retained step, written with the identifier and packet the loop computes. */
  lemma RetainedStepIs(s: ClientSession, m: StoredMessage, c: PacketId, id: Option<PacketId>, p: PublishMessage)
    requires id == RetainedPacketId(m, c) && p == RetainedPacket(m, c)
    ensures RetainedStep(s, m, c) == (if id.Some? then [InFlight(s, m.guid, id)] else []) + [Sent(s, p)]
  {
  }

  /**
   * One iteration of publishRetained: if the state so far is that of the first
   * i messages and the i-th message's calls are appended, the state is that of
   * the first i + 1 messages.
   */
  lemma RetainedIteration(s: ClientSession, msgs: seq<StoredMessage>, counter: PacketId, i: nat,
                          id: Option<PacketId>, p: PublishMessage,
                          t0: seq<Event>, r0: seq<(Guid, Option<PacketId>)>, q0: seq<(ClientSession, PublishMessage)>,
                          t: seq<Event>, r: seq<(Guid, Option<PacketId>)>, q: seq<(ClientSession, PublishMessage)>)
    requires i < |msgs|
    requires id == RetainedPacketId(msgs[i], counter + PacketIdCount(msgs[..i]))
    requires p == RetainedPacket(msgs[i], counter + PacketIdCount(msgs[..i]))
    requires t == t0 + RetainedTrace(s, msgs[..i], counter)
      + (if id.Some? then [InFlight(s, msgs[i].guid, id)] else []) + [Sent(s, p)]
    requires r == r0 + RetainedRegistrations(msgs[..i], counter)
      + (if id.Some? then [(msgs[i].guid, id)] else [])
    requires q == q0 + RetainedSends(s, msgs[..i], counter) + [(s, p)]
    ensures PacketIdCount(msgs[..i + 1])
      == PacketIdCount(msgs[..i]) + if NeedsPacketId(msgs[i].qos) then 1 else 0
    ensures t == t0 + RetainedTrace(s, msgs[..i + 1], counter)
    ensures r == r0 + RetainedRegistrations(msgs[..i + 1], counter)
    ensures q == q0 + RetainedSends(s, msgs[..i + 1], counter)
  {
    var c := counter + PacketIdCount(msgs[..i]);
    var steps := if id.Some? then [InFlight(s, msgs[i].guid, id)] else [];
    var regs := if id.Some? then [(msgs[i].guid, id)] else [];
    assert msgs[..i + 1][..i] == msgs[..i];
    RetainedStepIs(s, msgs[i], c, id, p);
    assert RetainedTrace(s, msgs[..i + 1], counter) == RetainedTrace(s, msgs[..i], counter) + (steps + [Sent(s, p)]);
    assert RetainedRegistrations(msgs[..i + 1], counter) == RetainedRegistrations(msgs[..i], counter) + regs;
    assert RetainedSends(s, msgs[..i + 1], counter) == RetainedSends(s, msgs[..i], counter) + [(s, p)];
  }

  /** One iteration of publishStored, in the same sense. */
  lemma StoredIteration(s: ClientSession, msgs: seq<StoredMessage>, i: nat, p: PublishMessage,
                        t0: seq<Event>, r0: seq<(Guid, Option<PacketId>)>, q0: seq<(ClientSession, PublishMessage)>,
                        t: seq<Event>, r: seq<(Guid, Option<PacketId>)>, q: seq<(ClientSession, PublishMessage)>)
    requires i < |msgs|
    requires p == StoredPacket(msgs[i])
    requires t == t0 + StoredTrace(s, msgs[..i]) + [InFlight(s, msgs[i].guid, msgs[i].messageId)] + [Sent(s, p)]
    requires r == r0 + StoredRegistrations(msgs[..i]) + [(msgs[i].guid, msgs[i].messageId)]
    requires q == q0 + StoredSends(s, msgs[..i]) + [(s, p)]
    ensures t == t0 + StoredTrace(s, msgs[..i + 1])
    ensures r == r0 + StoredRegistrations(msgs[..i + 1])
    ensures q == q0 + StoredSends(s, msgs[..i + 1])
  {
    assert msgs[..i + 1][..i] == msgs[..i];
    assert StoredTrace(s, msgs[..i + 1])
      == StoredTrace(s, msgs[..i]) + ([InFlight(s, msgs[i].guid, msgs[i].messageId)] + [Sent(s, p)]);
  }

  // ---------------------------------------------------------------- counting

  /** The indices of the messages that need a packet identifier. */
  ghost function NeedingIndices(msgs: seq<StoredMessage>): set<int>
  {
    set i | 0 <= i < |msgs| && NeedsPacketId(msgs[i].qos)
  }

  /** PacketIdCount is the number of QoS 1 and QoS 2 messages. */
  lemma {:induction false} PacketIdCountIsCount(msgs: seq<StoredMessage>)
    ensures PacketIdCount(msgs) == |NeedingIndices(msgs)|
  {
    if msgs != [] {
      var n := |msgs| - 1;
      PacketIdCountIsCount(msgs[..n]);
      var last: set<int> := if NeedsPacketId(msgs[n].qos) then {n} else {};
      assert NeedingIndices(msgs) == NeedingIndices(msgs[..n]) + last;
      assert NeedingIndices(msgs[..n]) !! last;
    }
  }

  /** A message needing an identifier strictly raises the count of every longer prefix. */
  lemma {:induction false} PacketIdCountPrefix(msgs: seq<StoredMessage>, k: nat, l: nat)
    requires k <= l <= |msgs|
    ensures PacketIdCount(msgs[..k]) + (if k < l && NeedsPacketId(msgs[k].qos) then 1 else 0)
      <= PacketIdCount(msgs[..l])
  {
    if k < l {
      PacketIdCountPrefix(msgs, k, l - 1);
      assert msgs[..l][..l - 1] == msgs[..l - 1];
    }
  }

  // ---------------------------------------------------------------- retained flow

  /** publishRetained sends one packet per message and registers one per QoS 1/2 message. */
  lemma {:induction false} RetainedCounts(s: ClientSession, msgs: seq<StoredMessage>, counter: PacketId)
    ensures |RetainedSends(s, msgs, counter)| == |msgs|
    ensures |RetainedRegistrations(msgs, counter)| == PacketIdCount(msgs)
  {
    RetainedRegistrationCount(msgs, counter);
    if msgs != [] {
      RetainedCounts(s, msgs[..|msgs| - 1], counter);
    }
  }

  /** publishRetained registers one identifier per QoS 1/2 message. */
  lemma {:induction false} RetainedRegistrationCount(msgs: seq<StoredMessage>, counter: PacketId)
    ensures |RetainedRegistrations(msgs, counter)| == PacketIdCount(msgs)
  {
    if msgs != [] {
      RetainedRegistrationCount(msgs[..|msgs| - 1], counter);
    }
  }

  /**
   * The i-th packet publishRetained sends goes to the session, has the retain
   * flag set, copies the message's topic, QoS and payload, and carries the
   * freshly allocated identifier exactly when the QoS is 1 or 2.
   */
  lemma {:induction false} RetainedSendsAt(s: ClientSession, msgs: seq<StoredMessage>, counter: PacketId, i: nat)
    requires i < |msgs|
    ensures |RetainedSends(s, msgs, counter)| == |msgs|
    ensures RetainedSends(s, msgs, counter)[i].0 == s
    ensures Delivers(RetainedSends(s, msgs, counter)[i].1, msgs[i], true)
    ensures RetainedSends(s, msgs, counter)[i].1.messageId
      == if NeedsPacketId(msgs[i].qos) then Some(counter + PacketIdCount(msgs[..i])) else None
  {
    var n := |msgs| - 1;
    RetainedCounts(s, msgs, counter);
    RetainedCounts(s, msgs[..n], counter);
    if i < n {
      RetainedSendsAt(s, msgs[..n], counter, i);
      assert msgs[..n][..i] == msgs[..i];
      assert RetainedSends(s, msgs, counter)[i] == RetainedSends(s, msgs[..n], counter)[i];
    }
  }

  /** The registration of a QoS 1/2 message pairs its guid with the identifier its packet carries. */
  lemma {:induction false} RetainedRegistrationOf(msgs: seq<StoredMessage>, counter: PacketId, i: nat)
    requires i < |msgs| && NeedsPacketId(msgs[i].qos)
    ensures PacketIdCount(msgs[..i]) < |RetainedRegistrations(msgs, counter)|
    ensures RetainedRegistrations(msgs, counter)[PacketIdCount(msgs[..i])]
      == (msgs[i].guid, Some(counter + PacketIdCount(msgs[..i])))
  {
    var n := |msgs| - 1;
    RetainedRegistrationCount(msgs[..n], counter);
    if i < n {
      RetainedRegistrationOf(msgs[..n], counter, i);
      assert msgs[..n][..i] == msgs[..i];
      assert RetainedRegistrations(msgs, counter)[PacketIdCount(msgs[..i])]
        == RetainedRegistrations(msgs[..n], counter)[PacketIdCount(msgs[..i])];
    }
  }

  /** The identifiers registered by publishRetained are counter, counter + 1, ... in order. */
  lemma {:induction false} RetainedIdsConsecutive(msgs: seq<StoredMessage>, counter: PacketId, j: nat)
    requires j < |RetainedRegistrations(msgs, counter)|
    ensures RetainedRegistrations(msgs, counter)[j].1 == Some(counter + j)
  {
    var n := |msgs| - 1;
    RetainedRegistrationCount(msgs[..n], counter);
    if j < PacketIdCount(msgs[..n]) {
      RetainedIdsConsecutive(msgs[..n], counter, j);
      assert RetainedRegistrations(msgs, counter)[j] == RetainedRegistrations(msgs[..n], counter)[j];
    }
  }

  /** Two QoS 1/2 packets of one publishRetained call never share an identifier. */
  lemma RetainedIdsDistinct(s: ClientSession, msgs: seq<StoredMessage>, counter: PacketId, i: nat, j: nat)
    requires i < j < |msgs|
    requires NeedsPacketId(msgs[i].qos) && NeedsPacketId(msgs[j].qos)
    ensures |RetainedSends(s, msgs, counter)| == |msgs|
    ensures RetainedSends(s, msgs, counter)[i].1.messageId != RetainedSends(s, msgs, counter)[j].1.messageId
  {
    RetainedSendsAt(s, msgs, counter, i);
    RetainedSendsAt(s, msgs, counter, j);
    PacketIdCountPrefix(msgs, i, j);
  }

  lemma RegisteredBeforeSentAppend(a: seq<Event>, b: seq<Event>)
    requires RegisteredBeforeSent(a) && RegisteredBeforeSent(b)
    requires |b| > 0 && b[0].Sent? ==> b[0].packet.messageId.None?
    ensures RegisteredBeforeSent(a + b)
  {
  }

  /** publishRetained registers each identifier right before sending the packet that carries it. */
  lemma {:induction false} RetainedRegistersBeforeSending(s: ClientSession, msgs: seq<StoredMessage>, counter: PacketId)
    ensures RegisteredBeforeSent(RetainedTrace(s, msgs, counter))
  {
    if msgs != [] {
      var n := |msgs| - 1;
      var c := counter + PacketIdCount(msgs[..n]);
      var before := RetainedTrace(s, msgs[..n], counter);
      var step := RetainedStep(s, msgs[n], c);
      assert RetainedTrace(s, msgs, counter) == before + step;
      RetainedRegistersBeforeSending(s, msgs[..n], counter);
      assert RegisteredBeforeSent(step) by {
        if NeedsPacketId(msgs[n].qos) {
          assert step == [InFlight(s, msgs[n].guid, Some(c)), Sent(s, RetainedPacket(msgs[n], c))];
        } else {
          assert step == [Sent(s, RetainedPacket(msgs[n], c))];
        }
      }
      RegisteredBeforeSentAppend(before, step);
    }
  }

  // ---------------------------------------------------------------- stored flow

  /** publishStored sends exactly one packet and makes exactly one registration per message. */
  lemma {:induction false} StoredCounts(s: ClientSession, msgs: seq<StoredMessage>)
    ensures |StoredSends(s, msgs)| == |msgs|
    ensures |StoredRegistrations(msgs)| == |msgs|
  {
    StoredRegistrationCount(msgs);
    if msgs != [] {
      StoredCounts(s, msgs[..|msgs| - 1]);
    }
  }

  /** publishStored registers every message once. */
  lemma {:induction false} StoredRegistrationCount(msgs: seq<StoredMessage>)
    ensures |StoredRegistrations(msgs)| == |msgs|
  {
    if msgs != [] {
      StoredRegistrationCount(msgs[..|msgs| - 1]);
    }
  }

  /**
   * The i-th packet publishStored sends goes to the session, has the retain
   * flag clear, copies the message's topic, QoS and payload, and carries the
   * message's own stored identifier when the QoS is 1 or 2 and none otherwise.
   */
  lemma {:induction false} StoredSendsAt(s: ClientSession, msgs: seq<StoredMessage>, i: nat)
    requires i < |msgs|
    ensures |StoredSends(s, msgs)| == |msgs|
    ensures StoredSends(s, msgs)[i].0 == s
    ensures Delivers(StoredSends(s, msgs)[i].1, msgs[i], false)
    ensures StoredSends(s, msgs)[i].1.messageId
      == if NeedsPacketId(msgs[i].qos) then msgs[i].messageId else None
  {
    var n := |msgs| - 1;
    StoredCounts(s, msgs);
    StoredCounts(s, msgs[..n]);
    if i < n {
      StoredSendsAt(s, msgs[..n], i);
      assert StoredSends(s, msgs)[i] == StoredSends(s, msgs[..n])[i];
    }
  }

  /** publishStored registers every message, whatever its QoS, under its stored identifier. */
  lemma {:induction false} StoredRegistrationsAt(msgs: seq<StoredMessage>, i: nat)
    requires i < |msgs|
    ensures |StoredRegistrations(msgs)| == |msgs|
    ensures StoredRegistrations(msgs)[i] == (msgs[i].guid, msgs[i].messageId)
  {
    var n := |msgs| - 1;
    StoredRegistrationCount(msgs);
    StoredRegistrationCount(msgs[..n]);
    if i < n {
      StoredRegistrationsAt(msgs[..n], i);
      assert StoredRegistrations(msgs)[i] == StoredRegistrations(msgs[..n])[i];
    }
  }

  /**
   * The calls of publishStored, position by position: the i-th message's own
   * registration, then its packet.
   */
  lemma {:induction false} StoredTraceAt(s: ClientSession, msgs: seq<StoredMessage>, i: nat)
    requires i < |msgs|
    ensures |StoredTrace(s, msgs)| == 2 * |msgs|
    ensures StoredTrace(s, msgs)[2 * i] == InFlight(s, msgs[i].guid, msgs[i].messageId)
    ensures StoredTrace(s, msgs)[2 * i + 1] == Sent(s, StoredPacket(msgs[i]))
  {
    var n := |msgs| - 1;
    var before := StoredTrace(s, msgs[..n]);
    assert StoredTrace(s, msgs) == before + StoredStep(s, msgs[n]);
    if n > 0 {
      StoredTraceAt(s, msgs[..n], if i < n then i else 0);
    }
    if i < n {
      assert StoredTrace(s, msgs)[2 * i] == before[2 * i];
      assert StoredTrace(s, msgs)[2 * i + 1] == before[2 * i + 1];
    }
  }

  lemma EverySendRegisteredAppend(a: seq<Event>, b: seq<Event>)
    requires EverySendRegistered(a) && EverySendRegistered(b)
    requires |b| > 0 ==> !b[0].Sent?
    ensures EverySendRegistered(a + b)
  {
  }

  /**
   * publishStored registers before every send, and a packet that carries an
   * identifier is preceded by the registration of that same identifier.
   */
  lemma {:induction false} StoredRegistersBeforeSending(s: ClientSession, msgs: seq<StoredMessage>)
    ensures EverySendRegistered(StoredTrace(s, msgs))
    ensures RegisteredBeforeSent(StoredTrace(s, msgs))
  {
    if msgs != [] {
      var n := |msgs| - 1;
      StoredRegistersBeforeSending(s, msgs[..n]);
      EverySendRegisteredAppend(StoredTrace(s, msgs[..n]), StoredStep(s, msgs[n]));
      RegisteredBeforeSentAppend(StoredTrace(s, msgs[..n]), StoredStep(s, msgs[n]));
    }
  }

  /**
   * Every packet publishStored sends obeys section 3.3.2.2 of MQTT 3.1.1 if and
   * only if every QoS 1/2 message handed to it already has an identifier.
   */
  lemma StoredIdentifiersMatchQos(s: ClientSession, msgs: seq<StoredMessage>)
    ensures |StoredSends(s, msgs)| == |msgs|
    ensures (forall i | 0 <= i < |msgs| :: IdentifierMatchesQos(StoredSends(s, msgs)[i].1))
      <==> (forall i | 0 <= i < |msgs| :: NeedsPacketId(msgs[i].qos) ==> msgs[i].messageId.Some?)
  {
    StoredCounts(s, msgs);
    forall i | 0 <= i < |msgs| {
      StoredSendsAt(s, msgs, i);
    }
  }
}
