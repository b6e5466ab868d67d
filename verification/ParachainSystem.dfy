/**
 The parachain system pallet: the inherent that brings the relay chain's view into a block, the hooks
 around it, and the calls that queue upward messages and code upgrades.
 */
module ParachainSystem {
  import opened Common
  import opened MessageChain
  import opened UpwardMessages
  import opened CodeUpgrade
  import H = HorizontalMessages
  import Dmp = DmpQueue
  import DmpPallet
  import Out = XcmpOutbound
  import OutProofs = XcmpOutboundProofs
  import In = XcmpInbound
  import XcmpPallet

  const U32: nat := 4294967296

  /** An egress channel as the relay parent has it. */
  datatype Egress = Egress(recipient: ParaId, msgCount: nat, maxCapacity: nat, totalSize: nat, maxTotalSize: nat, maxMessageSize: nat)

  function EgressRecipient(): Egress -> nat { (e: Egress) => e.recipient }

  datatype MessagingState = MessagingState(dmqMqcHead: Hash, queueCount: nat, queueSize: nat,
                                           ingress: seq<H.Channel>, egress: seq<Egress>)

  /** Whether a message could be sent on a channel, and how large; the sizes are 32-bit numbers. */
  function ChannelStatusOf(ms: Option<MessagingState>, id: ParaId): Out.ChannelStatus {
    if ms.None? then Out.Closed
    else
      var egress := ms.value.egress;
      var index := Search(egress, EgressRecipient(), id, 0, |egress|);
      if index.None? then Out.Closed
      else
        var meta := egress[index.value];
        if meta.msgCount + 1 > meta.maxCapacity then Out.Full
        else Out.Ready((meta.maxTotalSize - meta.totalSize) % U32, meta.maxMessageSize)
  }

  function InfoOf(ms: Option<MessagingState>): Out.ChannelInfo { (id: ParaId) => ChannelStatusOf(ms, id) }

  /** The relay's bookkeeping: no channel holds more bytes than it may, and sizes fit 32 bits. */
  ghost predicate RelayOk(ms: MessagingState) {
    forall e :: e in ms.egress ==> e.totalSize <= e.maxTotalSize < U32
  }

  /**
   What the outbound queue is told of a channel: closed if and only if the relay has no such channel, full
   if and only if it has no free slot, and otherwise exactly the free bytes and the message limit.
   */
  lemma ChannelStatusIs(ms: MessagingState, id: ParaId)
    requires RelayOk(ms) && Ascending(ms.egress, EgressRecipient())
    ensures ChannelStatusOf(Some(ms), id).Closed? <==> forall e :: e in ms.egress ==> e.recipient != id
    ensures forall e :: e in ms.egress && e.recipient == id ==>
              ChannelStatusOf(Some(ms), id) ==
              if e.msgCount >= e.maxCapacity then Out.Full else Out.Ready(e.maxTotalSize - e.totalSize, e.maxMessageSize)
  {
    hide Search;
    var egress := ms.egress;
    SearchFinds(egress, EgressRecipient(), id, 0, |egress|);
    var index := Search(egress, EgressRecipient(), id, 0, |egress|);
    if index.Some? {
      var meta := egress[index.value];
      assert EgressRecipient()(meta) == id && meta in egress;
      forall e | e in egress && e.recipient == id ensures e == meta {
        var i :| 0 <= i < |egress| && egress[i] == e;
        assert EgressRecipient()(egress[i]) == EgressRecipient()(egress[index.value]);
      }
      SmallIsItself(meta.maxTotalSize - meta.totalSize);
    } else {
      forall e | e in egress ensures e.recipient != id {
        var i :| 0 <= i < |egress| && egress[i] == e;
        assert EgressRecipient()(egress[i]) != id;
      }
    }
  }

  lemma SmallIsItself(n: nat)
    requires n < U32
    ensures n % U32 == n
  {
  }

  /**
   Every outbound batch meets the relay chain's acceptance criteria: it is within the announced and
   the current number of messages, recipients strictly ascend, and each page goes to an open channel
   that has a free slot, enough free bytes and a large enough message limit for it.
   */
  lemma BatchMeetsAcceptanceCriteria(s: Out.Outbound, ms: MessagingState, announced: nat, current: nat)
    requires Out.Valid(s) && RelayOk(ms)
    requires Out.Take(s, InfoOf(Some(ms)), Min(current, announced)).Taken?
    ensures var b := Out.Take(s, InfoOf(Some(ms)), Min(current, announced)).batch;
            && |b| <= announced && |b| <= current
            && (forall i, j :: 0 <= i < j < |b| ==> b[i].recipient < b[j].recipient)
            && (forall g :: g in b ==>
                              exists e :: && e in ms.egress && e.recipient == g.recipient && e.msgCount < e.maxCapacity
                                          && e.totalSize + |g.page| <= e.maxTotalSize && |g.page| <= e.maxMessageSize)
  {
    hide Out.Take;
    hide Search;
    var info := InfoOf(Some(ms));
    OutProofs.BatchMeetsChannelRules(s, info, Min(current, announced));
    var b := Out.Take(s, info, Min(current, announced)).batch;
    forall g | g in b
      ensures exists e :: && e in ms.egress && e.recipient == g.recipient && e.msgCount < e.maxCapacity
                          && e.totalSize + |g.page| <= e.maxTotalSize && |g.page| <= e.maxMessageSize
    {
      var index := Search(ms.egress, EgressRecipient(), g.recipient, 0, |ms.egress|);
      assert info(g.recipient) == ChannelStatusOf(Some(ms), g.recipient);
      var e := ms.egress[index.value];
      assert EgressRecipient()(e) == g.recipient;
      assert e in ms.egress;
    }
  }

  /** The dispatched horizontal messages as they reach the XCMP handler. */
  function Arrivals(items: seq<H.Item>): (a: seq<In.Arrival>)
    ensures |a| == |items| && forall i :: 0 <= i < |a| ==> a[i] == In.Arrival(items[i].sender, items[i].msg.sentAt, items[i].msg.data)
  {
    seq(|items|, i requires 0 <= i < |items| => In.Arrival(items[i].sender, items[i].msg.sentAt, items[i].msg.data))
  }

  /** The relay parent a block is built on. */
  datatype Persisted = Persisted(parentHead: Bytes, relayParentNumber: nat, relayParentStorageRoot: nat)

  /** What the collator submits with a block. */
  datatype Submitted = Submitted(validationData: Persisted, stateProof: Bytes, downward: seq<Message>, horizontal: seq<H.Inbox>)

  /** What a proof of the relay chain's state says, if it is a proof for the storage root at all. */
  datatype RelayState = RelayState(signal: Option<GoAhead>, restricted: bool, config: HostConfig, messaging: MessagingState)

  /** How the runtime reads state proofs, and whether it lets one relay block number follow another. */
  datatype Relay = Relay(read: (nat, Bytes) -> Option<RelayState>, follows: (nat, nat) -> bool)

  /** The check of relay block numbers that production chains use. */
  ghost predicate StrictlyIncreases(relay: Relay) {
    forall current: nat, previous: nat :: relay.follows(current, previous) <==> current > previous
  }

  /** The submitted data together with what the state proof says. */
  datatype InherentData = InherentData(relayParent: nat, downward: seq<Message>, horizontal: seq<H.Inbox>,
                                       signal: Option<GoAhead>, restricted: bool, config: HostConfig, messaging: MessagingState)

  /** The executors behind the two handlers, the weights reserved for them and the block's randomness. */
  datatype Handlers = Handlers(dmpEnv: Dmp.Env, dmpWeight: nat, xcmpEnv: In.Env, xcmpWeight: nat,
                               isController: ParaId -> bool, draw: nat -> nat)

  ghost predicate HandlersOk(h: Handlers) { Dmp.EnvOk(h.dmpEnv) && In.EnvOk(h.xcmpEnv) }

  class Pallet {
    const dmp: DmpPallet.DmpQueuePallet
    const xcmp: XcmpPallet.XcmpQueue
    const relay: Relay

    var code: Bytes
    var pendingValidationCode: Option<Bytes>
    var newValidationCode: Option<Bytes>
    var didSetValidationCode: bool
    var upgradeRestricted: bool
    var validationDataExists: bool
    var hostConfiguration: Option<HostConfig>
    var relevantMessagingState: Option<MessagingState>
    var lastRelayChainBlockNumber: nat
    var lastDmqMqcHead: Hash
    var lastHrmpMqcHeads: map<ParaId, Hash>
    var processedDownwardMessages: nat
    var hrmpWatermark: nat
    var hrmpOutboundMessages: seq<Out.Gone>
    var upwardMessages: seq<Bytes>
    var pendingUpwardMessages: seq<Bytes>
    var announcedHrmpMessagesPerCandidate: nat

    constructor (dmp: DmpPallet.DmpQueuePallet, xcmp: XcmpPallet.XcmpQueue, relay: Relay, code: Bytes)
      ensures this.dmp == dmp && this.xcmp == xcmp && this.relay == relay && lastRelayChainBlockNumber == 0
      ensures UpgradeState() == Upgrade(code, None, None, false, false, None, false)
      ensures lastDmqMqcHead == Zero && lastHrmpMqcHeads == map[] && pendingUpwardMessages == []
    {
      this.dmp, this.xcmp, this.relay, this.code := dmp, xcmp, relay, code;
      lastRelayChainBlockNumber := 0;
      pendingValidationCode, newValidationCode, didSetValidationCode := None, None, false;
      upgradeRestricted, validationDataExists := false, false;
      hostConfiguration, relevantMessagingState := None, None;
      lastDmqMqcHead, lastHrmpMqcHeads := Zero, map[];
      processedDownwardMessages, hrmpWatermark, announcedHrmpMessagesPerCandidate := 0, 0, 0;
      hrmpOutboundMessages, upwardMessages, pendingUpwardMessages := [], [], [];
    }

    ghost function UpgradeState(): Upgrade
      reads this
    {
      Upgrade(code, pendingValidationCode, newValidationCode, didSetValidationCode, upgradeRestricted,
              if hostConfiguration.Some? then Some(hostConfiguration.value.maxCodeSize) else None, validationDataExists)
    }

    /** The stored downward head is the fold of everything the downward queue has received. */
    ghost predicate Authentic()
      reads this, dmp
    {
      lastDmqMqcHead == Fold(Zero, dmp.received)
    }

    method OnInitialize()
      modifies this`newValidationCode, this`validationDataExists, this`processedDownwardMessages, this`hrmpWatermark,
               this`upwardMessages, this`hrmpOutboundMessages, this`announcedHrmpMessagesPerCandidate
      ensures UpgradeState() == CodeUpgrade.OnInitialize(old(UpgradeState()))
      ensures processedDownwardMessages == 0 && hrmpWatermark == 0 && upwardMessages == [] && hrmpOutboundMessages == []
      ensures announcedHrmpMessagesPerCandidate == if old(hostConfiguration).Some? then old(hostConfiguration).value.hrmpMaxMessageNumPerCandidate else 0
    {
      if !didSetValidationCode { newValidationCode := None; }
      validationDataExists := false;
      processedDownwardMessages, hrmpWatermark := 0, 0;
      upwardMessages, hrmpOutboundMessages := [], [];
      announcedHrmpMessagesPerCandidate := if hostConfiguration.Some? then hostConfiguration.value.hrmpMaxMessageNumPerCandidate else 0;
    }

    method ScheduleCodeUpgrade(validationFunction: Bytes) returns (error: Option<Error>)
      modifies this`pendingValidationCode, this`newValidationCode, this`didSetValidationCode
      ensures error == ScheduleError(old(UpgradeState()), validationFunction)
      ensures UpgradeState() == Schedule(old(UpgradeState()), validationFunction)
    {
      if !validationDataExists { return Some(ValidationDataNotAvailable); }
      if upgradeRestricted { return Some(ProhibitedByPolkadot); }
      if pendingValidationCode.Some? { return Some(OverlappingUpgrades); }
      if hostConfiguration.None? { return Some(HostConfigurationNotAvailable); }
      if |validationFunction| > hostConfiguration.value.maxCodeSize { return Some(Error.TooBig); }
      newValidationCode, didSetValidationCode := Some(validationFunction), true;
      pendingValidationCode := Some(validationFunction);
      error := None;
    }

    method SendUpwardMessage(message: Bytes) returns (accepted: bool)
      modifies this`pendingUpwardMessages
      ensures accepted == Accepts(hostConfiguration, message)
      ensures forall accepted0: seq<Bytes>, sent: seq<Bytes> ::
                pendingUpwardMessages == UpwardMessages.Step(Upward(old(pendingUpwardMessages), accepted0, sent), Send(hostConfiguration, message)).pending
    {
      if hostConfiguration.Some? && |message| > hostConfiguration.value.maxUpwardMessageSize { return false; }
      pendingUpwardMessages := pendingUpwardMessages + [message];
      accepted := true;
    }

    /** The head after hashing the submitted messages one by one. */
    method HashDownward(messages: seq<Message>) returns (head: Hash)
      ensures head == Fold(lastDmqMqcHead, messages)
    {
      var chain := new MessageQueueChain.Stored(lastDmqMqcHead);
      var i := 0;
      assert messages[..0] == [];
      while i < |messages|
        invariant 0 <= i <= |messages|
        invariant chain.hash == Fold(lastDmqMqcHead, messages[..i])
      {
        FoldAppend(lastDmqMqcHead, messages[..i], [messages[i]]);
        assert messages[..i + 1] == messages[..i] + [messages[i]];
        chain.ExtendDownward(messages[i]);
        i := i + 1;
      }
      assert messages[..|messages|] == messages;
      head := chain.Head();
    }

    /** The running heads and the watermark after hashing the dispatched messages one by one. */
    method HashHorizontal(items: seq<H.Item>) returns (heads: map<ParaId, Hash>, watermark: Option<nat>)
      ensures heads == H.RunHeads(map[], lastHrmpMqcHeads, items)
      ensures watermark == H.Watermark(None, items)
    {
      heads, watermark := map[], None;
      var i := 0;
      assert items[0..] == items;
      while i < |items|
        invariant 0 <= i <= |items|
        invariant H.RunHeads(heads, lastHrmpMqcHeads, items[i..]) == H.RunHeads(map[], lastHrmpMqcHeads, items)
        invariant H.Watermark(watermark, items[i..]) == H.Watermark(None, items)
      {
        var item := items[i];
        if watermark.None? || watermark.value < item.msg.sentAt { watermark := Some(item.msg.sentAt); }
        var chain := new MessageQueueChain.Stored(H.Entry(heads, lastHrmpMqcHeads, item.sender));
        chain.ExtendHrmp(item.msg);
        FoldSnoc(H.Entry(heads, lastHrmpMqcHeads, item.sender), [], item.msg);
        assert [] + [item.msg] == [item.msg];
        heads := heads[item.sender := chain.hash];
        assert items[i..][1..] == items[i + 1..];
        i := i + 1;
      }
    }

    /** Compares every ingress channel's head with the relay's, carrying over the heads of quiet channels. */
    method CheckHeads(running: map<ParaId, Hash>, channels: seq<H.Channel>) returns (checked: Option<map<ParaId, Hash>>)
      ensures checked == H.CheckChannels(running, lastHrmpMqcHeads, channels)
    {
      var heads: map<ParaId, Hash> := running;
      var i := 0;
      assert channels[0..] == channels;
      while i < |channels|
        invariant 0 <= i <= |channels|
        invariant H.CheckChannels(heads, lastHrmpMqcHeads, channels[i..]) == H.CheckChannels(running, lastHrmpMqcHeads, channels)
      {
        var head := H.Entry(heads, lastHrmpMqcHeads, channels[i].sender);
        if head != H.Target(channels[i]) { return None; }
        heads := heads[channels[i].sender := head];
        assert channels[i..][1..] == channels[i + 1..];
        i := i + 1;
      }
      checked := Some(heads);
    }

    method ProcessInboundHorizontal(data: InherentData) returns (result: Option<H.Processed>)
      ensures result == H.Process(lastHrmpMqcHeads, data.messaging.ingress, data.horizontal, data.relayParent)
    {
      hide H.RunHeads;
      hide H.CheckChannels;
      hide H.Watermark;
      hide H.DispatchOrder;
      var channels := data.messaging.ingress;
      if !H.AllOpen(data.horizontal, channels) { return None; }
      var items := H.DispatchOrder(data.horizontal);
      var running, watermark := HashHorizontal(items);
      var checked := CheckHeads(running, channels);
      if checked.None? { return None; }
      result := Some(H.Processed(checked.value, if watermark.Some? then watermark.value else data.relayParent, items));
    }

    /** The submitted data with the relay's state read from the proof; None if the proof is invalid. */
    function Read(submitted: Submitted): Option<InherentData> {
      var view := relay.read(submitted.validationData.relayParentStorageRoot, submitted.stateProof);
      if view.None? then None
      else
        Some(InherentData(submitted.validationData.relayParentNumber, submitted.downward, submitted.horizontal,
                          view.value.signal, view.value.restricted, view.value.config, view.value.messaging))
    }

    /**
     What the inherent must satisfy for the block to be accepted: on the relay chain it names the relay
     parent the validators were given (`params`), its relay block number may follow the last one, the
     state proof can be read, and the messages are acceptable.
     */
    ghost predicate Admissible(submitted: Submitted, params: Option<Persisted>)
      reads this
    {
      && (params.Some? ==> params.value == submitted.validationData)
      && relay.follows(submitted.validationData.relayParentNumber, lastRelayChainBlockNumber)
      && Read(submitted).Some? && Acceptable(Read(submitted).value)
    }

    /** What the inherent's messages must satisfy for the block to be accepted. */
    ghost predicate Acceptable(data: InherentData)
      reads this
    {
      && CodeUpgrade.SetValidationData(UpgradeState(), data.signal, data.restricted, data.config.maxCodeSize).Some?
      && Fold(lastDmqMqcHead, data.downward) == data.messaging.dmqMqcHead
      && H.Process(lastHrmpMqcHeads, data.messaging.ingress, data.horizontal, data.relayParent).Some?
    }

    /** Applies or discards the pending code as the relay chain says and stores the relay's view. */
    method ApplyRelayView(data: InherentData)
      requires CodeUpgrade.SetValidationData(UpgradeState(), data.signal, data.restricted, data.config.maxCodeSize).Some?
      modifies this`code, this`pendingValidationCode, this`upgradeRestricted, this`validationDataExists,
               this`hostConfiguration, this`relevantMessagingState, this`lastRelayChainBlockNumber
      ensures Some(UpgradeState()) == CodeUpgrade.SetValidationData(old(UpgradeState()), data.signal, data.restricted, data.config.maxCodeSize)
      ensures relevantMessagingState == Some(data.messaging) && hostConfiguration == Some(data.config)
      ensures lastRelayChainBlockNumber == data.relayParent
    {
      lastRelayChainBlockNumber := data.relayParent;
      match data.signal {
        case None =>
        case Some(Abort) => pendingValidationCode := None;
        case Some(Proceed) => code, pendingValidationCode := pendingValidationCode.value, None;
      }
      upgradeRestricted, validationDataExists := data.restricted, true;
      relevantMessagingState, hostConfiguration := Some(data.messaging), Some(data.config);
    }

    /** Hands the downward messages to the queue, which drains them, and stores the head they lead to. */
    method DeliverDownward(h: Handlers, messages: seq<Message>, head: Hash)
      requires HandlersOk(h) && head == Fold(lastDmqMqcHead, messages)
      modifies this`lastDmqMqcHead, this`processedDownwardMessages,
               dmp`beginUsed, dmp`endUsed, dmp`pages, dmp`overweight, dmp`overweightCount, dmp`tick, dmp`log, dmp`received
      ensures lastDmqMqcHead == head && processedDownwardMessages == |messages|
      ensures dmp.received == old(dmp.received) + messages
      ensures messages == [] ==> dmp.State() == old(dmp.State())
      ensures messages != [] ==>
                dmp.State() == Dmp.HandleMessages(h.dmpEnv, h.dmpWeight, old(dmp.maxIndividual), old(dmp.State()), messages).0
      ensures old(Authentic()) ==> Authentic()
    {
      FoldAppend(Zero, dmp.received, messages);
      if messages != [] {
        ReceivedGrows(h.dmpEnv, h.dmpWeight, dmp.maxIndividual, dmp.State(), messages);
        hide Dmp.HandleMessages;
        var _ := dmp.HandleDmpMessages(h.dmpEnv, messages, h.dmpWeight);
      }
      lastDmqMqcHead, processedDownwardMessages := head, |messages|;
    }

    /** Hands the dispatched messages to the XCMP handler and stores heads and watermark. */
    method DeliverHorizontal(h: Handlers, r: H.Processed)
      requires HandlersOk(h)
      modifies this`lastHrmpMqcHeads, this`hrmpWatermark,
               xcmp`inboundXcmpStatus, xcmp`inboundXcmpMessages, xcmp`overweight, xcmp`overweightCount, xcmp`tick,
               xcmp`log, xcmp`calls, xcmp`accepted, xcmp`outboundXcmpStatus, xcmp`signalMessages
      ensures lastHrmpMqcHeads == r.heads && hrmpWatermark == r.watermark
      ensures xcmp.Inbound() == In.HandleMessages(old(xcmp.JobOf(h.xcmpEnv, h.xcmpWeight, h.isController)), old(xcmp.Inbound()), Arrivals(r.dispatched), h.draw).s
      ensures XcmpPallet.Replayed(old(xcmp.Outbound()), old(xcmp.calls), xcmp.Outbound(), xcmp.calls)
    {
      hide In.HandleMessages;
      hide XcmpPallet.Replayed;
      hide Arrivals;
      var _ := xcmp.HandleXcmpMessages(h.xcmpEnv, Arrivals(r.dispatched), h.xcmpWeight, h.isController, h.draw);
      lastHrmpMqcHeads, hrmpWatermark := r.heads, r.watermark;
    }

    /** The checks on the messages: the heads the inherent would store, or nothing if the block is rejected. */
    method CheckInherent(data: InherentData) returns (ok: bool, dmqHead: Hash, horizontal: Option<H.Processed>)
      ensures ok <==> Acceptable(data)
      ensures ok ==> dmqHead == data.messaging.dmqMqcHead && dmqHead == Fold(lastDmqMqcHead, data.downward)
      ensures ok ==> horizontal.Some? && horizontal == H.Process(lastHrmpMqcHeads, data.messaging.ingress, data.horizontal, data.relayParent)
    {
      hide H.Process;
      hide Fold;
      dmqHead := HashDownward(data.downward);
      horizontal := ProcessInboundHorizontal(data);
      ok := && !validationDataExists && !(data.signal == Some(Proceed) && pendingValidationCode.None?)
            && dmqHead == data.messaging.dmqMqcHead && horizontal.Some?;
    }

    /** The state after an accepted inherent, of this pallet and of both queues. */
    twostate predicate Processed(data: InherentData, h: Handlers)
      requires HandlersOk(h)
      reads this, dmp, xcmp
    {
      && Some(UpgradeState()) == CodeUpgrade.SetValidationData(old(UpgradeState()), data.signal, data.restricted, data.config.maxCodeSize)
      && lastDmqMqcHead == data.messaging.dmqMqcHead && processedDownwardMessages == |data.downward|
      && relevantMessagingState == Some(data.messaging) && hostConfiguration == Some(data.config)
      && lastRelayChainBlockNumber == data.relayParent
      && dmp.received == old(dmp.received) + data.downward
      && dmp.State() == (if data.downward == [] then old(dmp.State())
                         else Dmp.HandleMessages(h.dmpEnv, h.dmpWeight, old(dmp.maxIndividual), old(dmp.State()), data.downward).0)
      && var r := H.Process(old(lastHrmpMqcHeads), data.messaging.ingress, data.horizontal, data.relayParent);
         && r.Some? && lastHrmpMqcHeads == r.value.heads && hrmpWatermark == r.value.watermark
         && xcmp.Inbound() == In.HandleMessages(old(xcmp.JobOf(h.xcmpEnv, h.xcmpWeight, h.isController)), old(xcmp.Inbound()), Arrivals(r.value.dispatched), h.draw).s
         && XcmpPallet.Replayed(old(xcmp.Outbound()), old(xcmp.calls), xcmp.Outbound(), xcmp.calls)
    }

    /** Checks the messages and, if all is well, delivers them. */
    method ProcessInherent(data: InherentData, h: Handlers) returns (accepted: bool)
      requires HandlersOk(h)
      modifies this`code, this`pendingValidationCode, this`upgradeRestricted, this`validationDataExists,
               this`hostConfiguration, this`relevantMessagingState, this`lastRelayChainBlockNumber,
               this`lastDmqMqcHead, this`processedDownwardMessages, this`lastHrmpMqcHeads, this`hrmpWatermark,
               dmp`beginUsed, dmp`endUsed, dmp`pages, dmp`overweight, dmp`overweightCount, dmp`tick, dmp`log, dmp`received,
               xcmp`inboundXcmpStatus, xcmp`inboundXcmpMessages, xcmp`overweight, xcmp`overweightCount, xcmp`tick,
               xcmp`log, xcmp`calls, xcmp`accepted, xcmp`outboundXcmpStatus, xcmp`signalMessages
      ensures accepted <==> old(Acceptable(data))
      ensures !accepted ==> unchanged(this) && unchanged(dmp) && unchanged(xcmp)
      ensures accepted ==> Processed(data, h)
      ensures old(Authentic()) ==> Authentic()
    {
      hide H.Process;
      hide Dmp.HandleMessages;
      hide In.HandleMessages;
      hide Fold;
      hide Arrivals;
      hide XcmpPallet.Replayed;
      hide DmpPallet.DmpQueuePallet.State;
      hide XcmpPallet.XcmpQueue.Inbound;
      hide XcmpPallet.XcmpQueue.Outbound;
      hide XcmpPallet.XcmpQueue.JobOf;
      hide CodeUpgrade.SetValidationData;
      var ok, dmqHead, horizontal := CheckInherent(data);
      if !ok { return false; }
      ApplyRelayView(data);
      DeliverDownward(h, data.downward, dmqHead);
      DeliverHorizontal(h, horizontal.value);
      accepted := true;
    }

    /**
     The inherent. A panic anywhere rejects the block, so nothing is written unless all checks pass.
     Accepted downward messages all reach the downward queue, and so the stored head stays the fold of
     everything that queue has received.
     */
    method SetValidationData(submitted: Submitted, params: Option<Persisted>, h: Handlers) returns (accepted: bool)
      requires HandlersOk(h)
      modifies this`code, this`pendingValidationCode, this`upgradeRestricted, this`validationDataExists,
               this`hostConfiguration, this`relevantMessagingState, this`lastRelayChainBlockNumber,
               this`lastDmqMqcHead, this`processedDownwardMessages, this`lastHrmpMqcHeads, this`hrmpWatermark,
               dmp`beginUsed, dmp`endUsed, dmp`pages, dmp`overweight, dmp`overweightCount, dmp`tick, dmp`log, dmp`received,
               xcmp`inboundXcmpStatus, xcmp`inboundXcmpMessages, xcmp`overweight, xcmp`overweightCount, xcmp`tick,
               xcmp`log, xcmp`calls, xcmp`accepted, xcmp`outboundXcmpStatus, xcmp`signalMessages
      ensures accepted <==> old(Admissible(submitted, params))
      ensures !accepted ==> unchanged(this) && unchanged(dmp) && unchanged(xcmp)
      ensures accepted ==> Processed(Read(submitted).value, h)
      ensures accepted && StrictlyIncreases(relay) ==> old(lastRelayChainBlockNumber) < lastRelayChainBlockNumber
      ensures old(Authentic()) ==> Authentic()
    {
      hide Acceptable;
      hide H.Process;
      hide Dmp.HandleMessages;
      hide In.HandleMessages;
      hide Fold;
      hide Arrivals;
      hide XcmpPallet.Replayed;
      var vfp := submitted.validationData;
      if params.Some? && params.value != vfp { return false; }
      if !relay.follows(vfp.relayParentNumber, lastRelayChainBlockNumber) { return false; }
      var data := Read(submitted);
      if data.None? { return false; }
      accepted := ProcessInherent(data.value, h);
    }

    /** Sends the longest prefix of the pending upward messages that fits the relay's limits. */
    method FinalizeUpward(config: HostConfig, messaging: MessagingState)
      modifies this`upwardMessages, this`pendingUpwardMessages
      ensures upwardMessages + pendingUpwardMessages == old(pendingUpwardMessages)
      ensures forall k :: 0 <= k <= |old(pendingUpwardMessages)| ==>
                            (Fits(old(pendingUpwardMessages), k, Capacity(config, messaging.queueCount), Room(config, messaging.queueSize)) <==>
                             k <= |upwardMessages|)
      ensures |upwardMessages| == SendCount(config, messaging.queueCount, messaging.queueSize, old(pendingUpwardMessages))
    {
      var up := pendingUpwardMessages;
      var capLeft: nat := Min(SatSub(config.maxUpwardQueueCount, messaging.queueCount), config.maxUpwardMessageNumPerCandidate);
      var sizeLeft: nat := SatSub(config.maxUpwardQueueSize, messaging.queueSize);
      ghost var capacity, size := capLeft, sizeLeft;
      var num := 0;
      assert up[0..] == up;
      while num < |up| && capLeft > 0 && sizeLeft >= |up[num]|
        invariant 0 <= num <= |up|
        invariant num + FitCount(up[num..], capLeft, sizeLeft) == FitCount(up, capacity, size)
      {
        assert up[num..][0] == up[num] && up[num..][1..] == up[num + 1..];
        capLeft, sizeLeft := capLeft - 1, sizeLeft - |up[num]|;
        num := num + 1;
      }
      assert num == FitCount(up, capacity, size) by { if num < |up| { assert up[num..][0] == up[num]; } }
      upwardMessages := up[..num];
      pendingUpwardMessages := up[num..];
      forall k | 0 <= k <= |up| ensures Fits(up, k, capacity, size) <==> k <= num {
        FitCountIsLongest(up, capacity, size, k);
      }
    }

    /** The relay's view of this chain is known, as it is after an accepted inherent. */
    predicate RelayViewKnown()
      reads this
    {
      hostConfiguration.Some? && relevantMessagingState.Some?
    }

    /** The batch of outbound pages that the end of the block asks for. */
    ghost function OutboundBatch(): Out.TakeResult
      requires RelayViewKnown()
      reads this, xcmp
    {
      Out.Take(xcmp.Outbound(), InfoOf(relevantMessagingState),
               Min(hostConfiguration.value.hrmpMaxMessageNumPerCandidate, announcedHrmpMessagesPerCandidate))
    }

    /** The end of the block; false is a panic, which rejects the block and leaves storage as it was. */
    method OnFinalize() returns (accepted: bool)
      modifies this`upwardMessages, this`pendingUpwardMessages, this`hrmpOutboundMessages, this`announcedHrmpMessagesPerCandidate,
               this`didSetValidationCode, this`upgradeRestricted,
               xcmp`outboundXcmpStatus, xcmp`outboundXcmpMessages, xcmp`signalMessages
      ensures accepted <==> old(validationDataExists && (RelayViewKnown() ==> OutboundBatch().Taken?))
      ensures !accepted ==> unchanged(this) && unchanged(xcmp)
      ensures accepted ==> old(validationDataExists) && UpgradeState() == CodeUpgrade.OnFinalize(old(UpgradeState()))
      ensures accepted && old(hostConfiguration).Some? && old(relevantMessagingState).Some? ==>
                var config, messaging := old(hostConfiguration).value, old(relevantMessagingState).value;
                var n := SendCount(config, messaging.queueCount, messaging.queueSize, old(pendingUpwardMessages));
                var t := Out.Take(old(xcmp.Outbound()), InfoOf(Some(messaging)), Min(config.hrmpMaxMessageNumPerCandidate, old(announcedHrmpMessagesPerCandidate)));
                && upwardMessages == old(pendingUpwardMessages)[..n] && pendingUpwardMessages == old(pendingUpwardMessages)[n..]
                && t.Taken? && hrmpOutboundMessages == t.batch && xcmp.Outbound() == t.s
                && announcedHrmpMessagesPerCandidate == 0
      ensures accepted && !old(RelayViewKnown()) ==>
                && unchanged(xcmp)
                && unchanged(`upwardMessages, `pendingUpwardMessages, `hrmpOutboundMessages, `announcedHrmpMessagesPerCandidate)
    {
      hide Out.Take;
      if !validationDataExists { return false; }
      if hostConfiguration.Some? && relevantMessagingState.Some? {
        var maximumChannels := Min(hostConfiguration.value.hrmpMaxMessageNumPerCandidate, announcedHrmpMessagesPerCandidate);
        var panics, batch := xcmp.TakeOutboundMessages(InfoOf(relevantMessagingState), maximumChannels);
        if panics {
          return false;
        }
        FinalizeUpward(hostConfiguration.value, relevantMessagingState.value);
        announcedHrmpMessagesPerCandidate := 0;
        hrmpOutboundMessages := batch;
      }
      didSetValidationCode, upgradeRestricted := false, false;
      accepted := true;
    }
  }

  lemma ReceivedGrows(env: Dmp.Env, limit: nat, maxIndividual: nat, s: Dmp.Dmp, batch: seq<Message>)
    requires Dmp.EnvOk(env)
    ensures Dmp.HandleMessages(env, limit, maxIndividual, s, batch).0.received == s.received + batch
  {
  }

  /**
   From relay to executor: if the downward queue is in order and the stored head is authentic, then the
   messages decided so far followed by the messages queued are exactly the relay's downward queue.
   */
  lemma DecidedAndQueuedAreRelaySequence(s: Dmp.Dmp, head: Hash, relay: seq<Message>)
    requires Dmp.QueueOk(s) && head == Fold(Zero, s.received) && head == Fold(Zero, relay)
    ensures Dmp.Decided(s.log) + Dmp.Flat(s) == relay
  {
    HeadDeterminesQueue(s.received, relay);
  }
}
