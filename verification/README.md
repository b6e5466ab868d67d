# Verified models of Cumulus

Cumulus connects a parachain to its relay chain. This project models the parts of it that carry
messages, blocks and money, in Dafny 4.11, and proves what they promise over whole runs:

- the XCMP queue pallet: outbound pages and signals, the inbound scheduler and parser, and the
  Suspend/Resume handshake between two chains;
- the downward message queue pallet, a paged FIFO with an overweight side store;
- the parachain system pallet: message queue hash chains, dispatch of horizontal messages, upward
  messages and runtime upgrades;
- PoV recovery, the node service that recovers and imports missing blocks in order;
- collator selection and the asset trader, which keep deposits and fees.

Nothing here is executed; everything is checked by the verifier: `dafny verify dfyconfig.toml`.

## How the models are built

For every pallet or service there is a module of functions on values and one or more modules of lemmas
about them, and a module with a class whose fields are the storage items and whose methods are the
dispatchables, hooks and handlers with their loops. Each method is proved equal to the function that
specifies it; each promise is proved about the functions, for all inputs and all runs.

| Modules | Content |
|---|---|
| `XcmpFormat`, `XcmpOutbound`, `XcmpOutboundProofs`, `XcmpDispatch` | page formats, signals, the outbound half |
| `XcmpInbound`, `XcmpInboundProofs`, `XcmpLookup`, `XcmpArrivals`, `XcmpScheduler` | the inbound half: parser, arriving pages, scheduler |
| `XcmpRuns` | runs of both halves |
| `XcmpPeers`, `XcmpMessages`, `XcmpStandstill` | runs of two chains: signals, data, a standstill |
| `XcmpPallet` | the pallet, class `XcmpQueue` |
| `DmpQueue`, `DmpVerdicts`, `DmpPallet` | the downward queue, class `DmpQueuePallet` |
| `MessageChain`, `HorizontalMessages`, `UpwardMessages`, `CodeUpgrade` | the four jobs of the parachain system |
| `ParachainSystem` | the pallet that ties them together, class `Pallet` |
| `PovRecovery`, `PovRecoveryRuns`, `PovRecoveryService` | PoV recovery, classes `ActiveCandidateRecovery` and `PoVRecovery` |
| `CollatorSelection`, `CollatorPallet` | collator selection, class `CollatorSelectionPallet` |
| `AssetTrader`, `AssetTraderService` | the trader, class `TakeFirstAssetTrader` |
| `Common` | options, bytes, stable sort, halving search |

What lies outside is a parameter with a stated contract:

- The XCM executor may answer differently on every call. It uses at most the weight it is given, and
  asks for more weight only if it needs more than it was given (`EnvOk`).
- The codec returns the length of the leading message and consumes at least one byte. A fragment is a
  byte string that the codec recognises whatever follows it (`IsFragment`).
- Random numbers, channel states, relay state, block states, prices and balances of other pallets are
  arbitrary inputs.
- Hashes are symbolic terms, that is injective and acyclic.
- A panic or a failed call leaves the storage as it was.

Models carry history next to the storage (accepted fragments, pages that left, verdicts, signals), so
that statements about whole runs can be made.

## Results worth knowing

Where a promise fails, a lemma gives a failing input, and the exact condition is proved unless the text
says that the condition is only sufficient.

- A batch of outbound pages is built without a panic if and only if no more channels vanish than emit
  and stay (`TakePanicsIff`). One closed channel with nothing else waiting is enough to panic (`ClosedChannelPanics`), although
  a comment there argues that whoever is removed has sent something.
- Outbound pages refine a flat queue whatever happens: pages that left, for whatever reason, followed by
  pages stored, pack the accepted fragments in order. This needs only that no 16-bit page counter wraps,
  which is exactly when the window stays right (`SendKeepsValidIff`).
- A fragment as large as the channel maximum is accepted, but as long as that maximum does not grow no page
  that holds it is ever emitted, because the size check does not count the format byte
  (`FullSizeFragmentIsNeverEmitted`). `SendReportsPosition` says exactly when a page gets too large.
- A channel that can send is never starved, whatever is heard and however the other channels fare
  (`NoStarvation`): a batch serves it or moves it up by exactly the size of the batch. After any batch the
  place of every channel is known from the state before it (`PlaceAfterBatch`).
- The inbound scheduler goes round as long as there is weight: if a service call leaves the threshold unused,
  every channel it leaves was passed over by suspension or used nothing at its last visit with everything
  unlocked (`ServiceLeavesOnly`). A backlog of messages that run and fit is drained by one call
  (`FittingQueueIsDrained`).
- The inbound list is searched by halving but extended unsorted, so a sender can be missed and get two
  entries; it is enough that a new chain below the only waiting one speaks first (`LowerNewcomerHidesSender`,
  `UnsortedLookupDuplicates`). A batch leaves one entry of a sender if and only if no lookup of that sender
  misses (`OneEntryIff`; for all senders at once `OneEntryPerSenderIff`), and an arrival leaves its channel in
  order if and only if its lookup does not miss and it does not overwrite a waiting page (`HarmlessIff`).
- Channels do not disturb each other. That the bytes and messages of a sender are decided once and in order
  (`InboundPagesDecidedOnceInOrder`, `MessagesDecidedOnceInOrder`) needs its own arrivals to be harmless, and
  that the signals issued to it alternate (`IssuedSignalsAlternate`) needs only its own lookups not to miss;
  other senders may send anything. What holds of the outbound half, of the signals heard and of the overweight
  store (`EveryRunInOrder`), and that no visit finds a channel without pages (`NoVisitFindsNothing`), holds
  over every run. No 16-bit outbound page counter may wrap.
- The handshake of two chains: at the receiver no assertion fires if and only if the signals on the delivered
  pages alternate (`NoAlarmIffDeliveredAlternate`), and they do if the sender misses no lookup of the receiver
  and loses no page of signals (`HandshakeNeverFails`). A lost one can make it fire (`LostSuspendRaisesAlarm`).
- Data from chain to chain: if the sender lost no data page and the receiver had room for those delivered, the
  messages decided there, and then those that wait, are the first of the messages accepted at the sender: none
  lost, repeated, reordered, split or joined (`MessagesArriveOnceInOrder`).
- Two chains that have suspended each other stay so for ever, because a suspended channel does not even let
  a Resume out (`MutualSuspensionIsForEver`); they can get there from genesis (`StandstillIsReached`).
- `send_signal` is documented as guaranteed to be dispatched in the same block. It is not: a suspended
  channel keeps its signals (`SuspendedSignalsWait`), and resuming an empty channel forgets that they
  wait (`ResumeOrphansSignals`); the announcement stays if and only if data waits too
  (`ResumeKeepsAnnouncementIff`). Stored signals are dispatched if and only if they are announced, the channel
  can send them and fewer channels before it can send than the batch has places (`SignalDispatchedIff`); for a
  signal just issued that is told from the state before it (`IssuedSignalDispatchedIff`). As long as no
  page counter wraps, every signal either left the channel, with its fate recorded, or still waits
  (`SignalsAreConserved`).
- The documentation of `weight_restrict_decay` says that 1 offers all of the weight at first. The code offers
  all of it to the first channel if and only if the setting is 0 or what would be left is below the threshold
  (`FirstGrantIsEverythingIff`); with 1 it is normally half (`DecayOneUnlocksHalf`). The code is followed.
- A fragment is given up for lack of weight if and only if it needs more than the page's grant and no more
  than the individual maximum (`VerdictsAreExact`). A grant excludes this for every executor if and only if
  it covers the individual maximum (`SafeGrantIff`).
- A block announces a code if and only if one was scheduled in it or after the `on_finalize` of the block
  before; the second case announces it twice (`AnnouncedIff`, `AnnouncedAgainIff`,
  `LateScheduleIsAnnouncedAgain`).
- The relay chain's upgrade restriction counts exactly for codes scheduled between the inherent and
  `on_finalize` (`TransactionSchedulesIff`, `RestrictionForgottenAfterFinalize`,
  `EarlyScheduleIgnoresRestriction`).
- The downward queue, pages, side store and all, works through the queue and then the arrivals as one list,
  each message with the fate that the executor's own answer calls for, and gives up exactly at the first
  message it may not park (`HandlingIsExact`). It makes progress if and only if its first message can be
  serviced (`ServicingProgressIff`).
- A block recovered before its parent is handed to the import queue by the time the parent's block is, unless
  the recovery of an ancestor fails in between (`RecoveredBlockIsImported`).
- Collator deposits are backed whatever other pallets hold reserved of the same accounts, and a refund goes
  down to exactly their part (`RunBacked`, `RemoveBacked`).
- Refunds never lose money, and they create none if and only if each of them finds at least the minimum
  balance of that moment outstanding (`FeesConservedIff`, `GrownMinimumCreatesMoney`). What is outstanding
  never falls below the minimum balance at the last refund (`RefundsKeepMinimum`).

## Model

| member | source | states |
|---|---|---|
| XcmpFormat.SignalsRoundTrip | pallets/xcmp-queue/src/lib.rs:947-954 | decoding the bytes of any sequence of signals gives the sequence back |
| XcmpFormat.DecodingStops | pallets/xcmp-queue/src/lib.rs:947-954 | decoding stops at the first byte that is no signal and gives the signals before it, whatever follows |
| XcmpFormat.FormatIsFirstByte | pallets/xcmp-queue/src/lib.rs:937-945 | a page is recognised by its first byte alone; an empty page and any byte above 2 are not |
| XcmpPallet.XcmpQueue.SendFragment | pallets/xcmp-queue/src/lib.rs:486-536 | state and result of sending a fragment, including refusals and counter wrap-around, as the outbound specification has them |
| XcmpPallet.XcmpQueue.AddToPages | pallets/xcmp-queue/src/lib.rs:509-534 | the last page is extended exactly if it exists, has the format and has room; otherwise a page is opened |
| XcmpPallet.XcmpQueue.SendSignal | pallets/xcmp-queue/src/lib.rs:540-557 | the signal is appended to the peer's signal page and the peer's status is flagged or created |
| XcmpPallet.XcmpQueue.SuspendChannel | pallets/xcmp-queue/src/lib.rs:892-902 | the new outbound state, and that the assertion holds exactly if the channel was Ok |
| XcmpPallet.XcmpQueue.ResumeChannel | pallets/xcmp-queue/src/lib.rs:904-921 | the new outbound state, and that the assertion holds exactly if the channel was suspended |
| XcmpPallet.XcmpQueue.VisitChannel | pallets/xcmp-queue/src/lib.rs:1007-1081 | one turn of the batch loop: which page leaves, with what fate, and what stays stored |
| XcmpPallet.XcmpQueue.RemoveWindow | pallets/xcmp-queue/src/lib.rs:1027-1029 | exactly the pages of the window are removed |
| XcmpPallet.XcmpQueue.CollectPages | pallets/xcmp-queue/src/lib.rs:1006-1082 | the whole batch loop with its early exit |
| XcmpPallet.XcmpQueue.TakeOutboundMessages | pallets/xcmp-queue/src/lib.rs:1000-1109 | batch, pruning and rotation as specified; on a panic storage is unchanged |
| XcmpOutbound.SendKeepsValidIff | pallets/xcmp-queue/src/lib.rs:319-333 | sending keeps stored keys equal to the windows of unique, non-idle statuses if and only if the 16-bit counter does not wrap |
| XcmpOutbound.TakeAt | pallets/xcmp-queue/src/lib.rs:1006-1106 | a batch does to each channel either nothing or exactly one visit with that channel's own data, pruning and rotation included |
| XcmpOutbound.TakeKeepsValid | pallets/xcmp-queue/src/lib.rs:1084-1106 | a batch keeps the window invariant for every channel |
| XcmpOutbound.ResumeKeepsValid | pallets/xcmp-queue/src/lib.rs:904-921 | resuming keeps the window invariant although it may remove a status |
| XcmpOutboundProofs.ReachableValid | pallets/xcmp-queue/src/lib.rs:319-333 | in every reachable state stored page keys are exactly the windows of unique, non-idle statuses, and announced signals exist |
| XcmpOutboundProofs.BatchMeetsChannelRules | pallets/xcmp-queue/src/lib.rs:1006-1086 | recipients strictly ascend, the limit is respected, every page fits the current and maximum size, nothing goes to a suspended channel |
| XcmpOutboundProofs.TakePanicsIff | pallets/xcmp-queue/src/lib.rs:1096-1104 | building the batch panics if and only if more reached channels vanish than emit and stay, counted on the state before the call |
| XcmpOutboundProofs.BatchContents | pallets/xcmp-queue/src/lib.rs:1006-1086 | a page is in the batch if and only if it is the next page of a channel that could send, with fewer channels before it that could send than the batch has places |
| XcmpOutboundProofs.SignalDispatchedIff | pallets/xcmp-queue/src/lib.rs:538-540 | in any valid state, a page of signals for a channel is in this batch if and only if its signals are announced, the channel can send them and fewer channels before it can send than the batch has places; the page is what was stored |
| XcmpDispatch.SignalIsAnnounced | pallets/xcmp-queue/src/lib.rs:540-557 | after issuing, the peer has a status that announces signals, with state and window as before, the page of signals ends with the new one, and nobody else is touched |
| XcmpDispatch.IssuedSignalDispatchedIff | pallets/xcmp-queue/src/lib.rs:538-557 | a signal just issued is in the next batch if and only if the channel is not suspended, the relay chain takes a page of that length and fewer channels before it can send than the batch has places; data does not hold it up |
| XcmpOutboundProofs.TakeSucceeds | pallets/xcmp-queue/src/lib.rs:1100-1104 | if no channel is closed or loses its only page for being oversize, the rotation amount is in range |
| XcmpOutboundProofs.ClosedChannelPanics | pallets/xcmp-queue/src/lib.rs:1024-1035 | if the only waiting channel is closed, the rotation amount is negative and the call panics |
| XcmpOutboundProofs.FullSizeFragmentIsNeverEmitted | pallets/xcmp-queue/src/lib.rs:496-500 | a fragment of the channel maximum is accepted, and over every run in which the maximum does not grow no emitted page holds it |
| XcmpOutboundProofs.SendReportsPosition | pallets/xcmp-queue/src/lib.rs:523-535 | an accepted fragment ends the last page, the result is that page's place in the queue, and the page exceeds the maximum by one byte exactly for a full-size fragment on a fresh page |
| XcmpOutboundProofs.FragmentIsPacked | pallets/xcmp-queue/src/lib.rs:509-534 | the fragment goes to the end of the last stored page if that opens with the byte of its format and has room, and otherwise opens a page; no other page and no other recipient changes |
| XcmpOutboundProofs.FragmentRefusedIff | pallets/xcmp-queue/src/lib.rs:496-500 | refused for want of a channel or for its size, each exactly then, and without any change |
| XcmpOutboundProofs.UnreachedMoveUp | pallets/xcmp-queue/src/lib.rs:1088-1104 | the channels a batch does not reach move up by exactly its size, whether those before them emitted, vanished or were passed over |
| XcmpOutboundProofs.TakeServesOrAdvances | pallets/xcmp-queue/src/lib.rs:1088-1104 | a channel that can send is in the batch or moves up by exactly the size of the batch |
| XcmpDispatch.BatchRotates | pallets/xcmp-queue/src/lib.rs:1088-1104 | the order after any batch is that of the channels that stay, rotated by those that emitted and stay less those that vanished, all told from the state before |
| XcmpDispatch.PlaceAfterBatch | pallets/xcmp-queue/src/lib.rs:1084-1106 | a channel keeps its status if and only if the batch was full before it, or it emitted and has more, or it did not vanish; with `p` such channels before it, its place is `p` minus the ledger, round the list |
| XcmpOutboundProofs.NoStarvation | pallets/xcmp-queue/src/lib.rs:1088-1104 | a channel at position `i` that can send whenever a batch is built emits within `i / m + 1` batches of at least `m` places, whatever is sent and heard and whatever the other channels do; only a Resume that removes its own status is excluded |
| XcmpOutboundProofs.OutboundRefinesFlatQueue | pallets/xcmp-queue/src/lib.rs:466-536 | over every run, pages gone followed by pages stored are consecutive groups of the accepted fragments: complete, in order, one format per page |
| XcmpOutboundProofs.NothingLostWithoutDrops | pallets/xcmp-queue/src/lib.rs:1049-1073 | if no page of a channel was dropped or swallowed, emitted pages followed by stored pages hold every accepted fragment in order |
| XcmpOutboundProofs.SignalsAreConserved | pallets/xcmp-queue/src/lib.rs:540-557 | over every run, signals gone followed by signals pending are the signals issued to a peer |
| XcmpOutboundProofs.NoAlarmIffAlternating | pallets/xcmp-queue/src/lib.rs:892-921 | over every run no assertion fires for a peer if and only if its signals alternate from Suspend, and its channel is suspended exactly after a Suspend |
| XcmpPallet.XcmpQueue.CreateShuffle | pallets/xcmp-queue/src/lib.rs:570-584 | the shuffled order is a permutation for any random numbers |
| XcmpScheduler.EveryOrderCanBeDrawn | pallets/xcmp-queue/src/lib.rs:570-584 | every order of the channels comes out of the shuffle for some random numbers |
| XcmpPallet.XcmpQueue.StashOverweight | pallets/xcmp-queue/src/lib.rs:739-752 | the message goes to the next free index |
| XcmpPallet.XcmpQueue.ServiceOverweight | pallets/xcmp-queue/src/lib.rs:134-153 | the three errors and the removal exactly on success |
| XcmpPallet.XcmpQueue.DecideFragment | pallets/xcmp-queue/src/lib.rs:652-697 | one fragment is executed, stashed, refused, dropped as garbage, or left for the next call, as specified |
| XcmpPallet.XcmpQueue.ParseFragments | pallets/xcmp-queue/src/lib.rs:651-698 | the loop over the fragments of a page |
| XcmpPallet.XcmpQueue.ProcessXcmpMessage | pallets/xcmp-queue/src/lib.rs:639-736 | weight used, remainder stored or page removed, overweight store and log after processing a page |
| XcmpPallet.XcmpQueue.ProcessOldestPage | pallets/xcmp-queue/src/lib.rs:846-858 | a finished page loses its metadata |
| XcmpPallet.XcmpQueue.ServeChannel | pallets/xcmp-queue/src/lib.rs:842-868 | one page is processed and the channel resumed if drained |
| XcmpPallet.XcmpQueue.ResumeIfDrained | pallets/xcmp-queue/src/lib.rs:861-868 | Resume is issued and the suspension lifted exactly at the threshold |
| XcmpPallet.XcmpQueue.UnlockWeight | pallets/xcmp-queue/src/lib.rs:827-840 | the weight unlocked for the next channel, never less than before and never above the maximum |
| XcmpPallet.XcmpQueue.ServiceTurn | pallets/xcmp-queue/src/lib.rs:813-826 | one turn of the scheduler loop: a suspended queue passes over everyone but the controller |
| XcmpPallet.XcmpQueue.ServeTurn | pallets/xcmp-queue/src/lib.rs:827-882 | the serving part of a turn with its push and run-again cases |
| XcmpPallet.XcmpQueue.ServiceLoop | pallets/xcmp-queue/src/lib.rs:810-883 | the loop over the growing list of channels ends in the state the recursion gives |
| XcmpPallet.XcmpQueue.ServiceXcmpQueue | pallets/xcmp-queue/src/lib.rs:781-890 | the whole service call; the loop ends and the signals it sent are applied to the outbound half in order |
| XcmpPallet.XcmpQueue.HearSignals | pallets/xcmp-queue/src/lib.rs:946-954 | the signals of a page are applied in order up to the first byte that is no signal |
| XcmpPallet.XcmpQueue.RecordPage | pallets/xcmp-queue/src/lib.rs:956-986 | metadata, suspension, drop and payload of an arriving data page |
| XcmpPallet.XcmpQueue.ReceivePage | pallets/xcmp-queue/src/lib.rs:933-987 | one arriving page by format; unknown formats are ignored |
| XcmpPallet.XcmpQueue.HandleXcmpMessages | pallets/xcmp-queue/src/lib.rs:925-996 | a batch of arrivals, the sort and the service call |
| XcmpInbound.StepDecreases | pallets/xcmp-queue/src/lib.rs:810-883 | every turn leaves less work, or as much work and fewer channels to visit, for any shuffle, decay, threshold and executor |
| XcmpInbound.ProcessProgress | pallets/xcmp-queue/src/lib.rs:639-736 | every page call consumes at least its first fragment, whatever weight it is given |
| XcmpInbound.ServiceStep | pallets/xcmp-queue/src/lib.rs:798-859 | weight used is at most weight available, which never falls and never exceeds the maximum |
| XcmpInbound.ServiceRun | pallets/xcmp-queue/src/lib.rs:810-883 | the loop terminates and keeps the weight bounds |
| XcmpInboundProofs.ParseDecidesPrefix | pallets/xcmp-queue/src/lib.rs:651-698 | a call decides a prefix of the page's fragments, at least one, and leaves a suffix on a fragment boundary |
| XcmpInboundProofs.ResumedParsingUndoesAggregation | pallets/xcmp-queue/src/lib.rs:639-736 | over any interruptions each fragment is decided once and in order, and as many calls as fragments decide them all |
| XcmpInboundProofs.VerdictsAreExact | pallets/xcmp-queue/src/lib.rs:651-698 | at any point of any page, every fragment decided has exactly the verdict that the executor's answer calls for, and the call stops exactly at the first fragment it can postpone |
| XcmpInboundProofs.VerdictsAreFair | pallets/xcmp-queue/src/lib.rs:657-693 | on any page, fragments or not, what is given up for lack of weight needs more than the grant and no more than the individual maximum |
| XcmpInboundProofs.SafeGrantIff | pallets/xcmp-queue/src/lib.rs:678-692 | no executor and no page can make a call give a fragment up if and only if the grant covers the individual maximum |
| XcmpInboundProofs.ServiceQueueWeighs | pallets/xcmp-queue/src/lib.rs:781-890 | the weight reported is within the limit and equals the weight of the messages executed |
| XcmpInboundProofs.WeightIsHeldBack | pallets/xcmp-queue/src/lib.rs:827-840 | after `n` turns of the scheduler, whatever the channels did, everything is unlocked or at least the part (decay / (decay + 1))^n of the weight is still held back |
| XcmpInboundProofs.EverythingUnlockedIff | pallets/xcmp-queue/src/lib.rs:827-840 | at any turn, exactly when all of the weight is unlocked, in terms of round, decay, threshold and what is still held back |
| XcmpInboundProofs.FirstGrantIsEverythingIff | pallets/xcmp-queue/src/lib.rs:437-440 | a service call offers its first channel everything if and only if the decay is 0 or what it would hold back is below the threshold |
| XcmpInboundProofs.DecayOneUnlocksHalf | pallets/xcmp-queue/src/lib.rs:438-440 | with a decay of 1 and a threshold of at most half the weight, a service call offers its first channel half of the weight |
| XcmpScheduler.TurnQueues | pallets/xcmp-queue/src/lib.rs:813-882 | one turn passes the first waiting channel over, or serves it and queues it behind the others if and only if it has pages left and used weight or not everything is unlocked; the others stay in order and untouched; only a channel alone is served again without counting as a turn |
| XcmpScheduler.GivenUpOnlyIf | pallets/xcmp-queue/src/lib.rs:810-883 | over the whole loop, if it ends with the threshold unused, every channel that waited is drained, was passed over, or used nothing at its last visit with everything unlocked |
| XcmpScheduler.ServiceLeavesOnly | pallets/xcmp-queue/src/lib.rs:781-890 | the same for every entry that a whole service call leaves behind |
| XcmpScheduler.RunningQueueIsDrained | pallets/xcmp-queue/src/lib.rs:781-890 | if every waiting page holds messages that run when given the threshold, a service call drains the queue or leaves less than the threshold unused |
| XcmpScheduler.FittingQueueIsDrained | pallets/xcmp-queue/src/lib.rs:781-890 | if moreover the weight covers the messages that wait, at the most that one may cost, and the threshold on top, one service call drains the queue and reports no more than that |
| XcmpInboundProofs.ParseStashesInOrder | pallets/xcmp-queue/src/lib.rs:739-752 | parsing keeps: the n-th message ever stashed has index n until it is serviced, at most once; no index is reused |
| XcmpInboundProofs.StashesNameTheirPage | pallets/xcmp-queue/src/lib.rs:739-752 | what a page stashes is kept with its sender and the page's time, and what was stashed before stays |
| XcmpInboundProofs.OverweightStashes | pallets/xcmp-queue/src/lib.rs:134-153 | servicing an overweight message removes it exactly if it is executed and keeps the order of all others |
| XcmpInboundProofs.OverweightIsExact | pallets/xcmp-queue/src/lib.rs:134-153 | an overweight message goes from the store if and only if it is there, decodes as a whole and runs with the caller's limit; each error exactly in its case |
| XcmpInboundProofs.PageGoesWithMetadata | pallets/xcmp-queue/src/lib.rs:729-736 | after a call the page is still stored if and only if its metadata is, and no other page of the sender comes or goes |
| XcmpInboundProofs.ServiceQueueNeverVisitsEmpty | pallets/xcmp-queue/src/lib.rs:842-845 | if every entry has a page when a service call starts, no visit of it finds a channel without pages; other entries may repeat senders |
| XcmpInboundProofs.ServeShape | pallets/xcmp-queue/src/lib.rs:842-868 | a channel stays suspended exactly if it was and more pages than the threshold are left; otherwise Resume is issued |
| XcmpArrivals.RecordEntries | pallets/xcmp-queue/src/lib.rs:956-985 | for a sender with one entry, unless the lookup misses: its entry grows or is created and stays the only one; the page is kept below the drop threshold and the sender suspended from the suspend threshold on |
| XcmpArrivals.RecordElsewhere | pallets/xcmp-queue/src/lib.rs:956-985 | whatever the list is like, recording a page touches no other sender's entry and no verdict |
| XcmpArrivals.SortKeepsEntries | pallets/xcmp-queue/src/lib.rs:992-994 | sorting any list of entries keeps each sender's entries in their order, also when a sender has several |
| XcmpArrivals.HarmlessIff | pallets/xcmp-queue/src/lib.rs:956-985 | whatever the other channels are like, an arrival leaves its sender's channel in order if and only if its lookup does not miss and it is not stamped like a waiting page, unless it is dropped and repeats that page |
| XcmpInboundProofs.ForgettingIsInvisible | pallets/xcmp-queue/src/lib.rs:885-888 | of a sender with one entry, forgetting empty entries leaves entry and pages as they were, except that one suspended without pages is Ok again |
| XcmpInboundProofs.ServiceQueuePreserves | pallets/xcmp-queue/src/lib.rs:781-890 | a service call keeps, for each sender by itself and whatever the others are like: order and completeness of its bytes, alternation of its signals; and the order of stashes; afterwards every entry has a page |
| XcmpArrivals.HandleDelivers | pallets/xcmp-queue/src/lib.rs:925-996 | handling a batch keeps the bytes of a sender in order if its own arrivals do no harm, whatever the others send |
| XcmpArrivals.HandleHandshakes | pallets/xcmp-queue/src/lib.rs:925-996 | handling a batch keeps the signals to a sender alternating if no lookup of that sender misses, whatever the others send |
| XcmpArrivals.HandleKeepsStore | pallets/xcmp-queue/src/lib.rs:925-996 | handling any batch leaves a page with every entry and keeps the overweight store in order |
| XcmpArrivals.HandleNeverVisitsEmpty | pallets/xcmp-queue/src/lib.rs:842-845 | the service call that ends the handling of any batch never visits a channel without pages |
| XcmpArrivals.HandleAscends | pallets/xcmp-queue/src/lib.rs:992-994 | if no lookup of the batch misses, the senders strictly ascend once it is handled |
| XcmpLookup.UnsortedLookupDuplicates | pallets/xcmp-queue/src/lib.rs:957-984 | senders 3, 1, 3 in one batch leave two entries for sender 3 |
| XcmpLookup.LowerNewcomerHidesSender | pallets/xcmp-queue/src/lib.rs:957-984 | while only chain `x` waits, a batch with a new chain below it and then `x` itself: the lookup of `x` misses |
| XcmpLookup.ReceiveKeepsUniqueIff | pallets/xcmp-queue/src/lib.rs:957-984 | an arrival leaves one entry per sender if and only if there was one before and its lookup does not miss |
| XcmpLookup.OneEntryPerSenderIff | pallets/xcmp-queue/src/lib.rs:925-991 | a batch leaves one entry per sender if and only if there was one before and no lookup misses, which the senders alone decide |
| XcmpLookup.ReceiveKeepsSingleIff | pallets/xcmp-queue/src/lib.rs:957-984 | an arrival leaves at most one entry of a sender if and only if there was at most one and no lookup of that sender misses |
| XcmpLookup.OneEntryIff | pallets/xcmp-queue/src/lib.rs:925-991 | a batch leaves at most one entry of a sender if and only if there was at most one and no lookup of that sender misses, whatever the others send |
| XcmpLookup.KnownSendersHit | pallets/xcmp-queue/src/lib.rs:957-984 | as long as the list of senders ascends strictly and only known senders speak, no lookup misses |
| XcmpRuns.EveryHandlingReplays | pallets/xcmp-queue/src/lib.rs:925-996 | for every batch, executor, weight and shuffle some run of the outbound half makes exactly the calls of the handling |
| XcmpRuns.EveryServiceReplays | pallets/xcmp-queue/src/lib.rs:781-890 | the same for a service call outside of a batch |
| XcmpRuns.EveryRunInOrder | pallets/xcmp-queue/src/lib.rs:465-1110 | one invariant over every run of both halves, whatever arrives, servicing of overweight messages included: every inbound entry has a page, stashes are in order, the halves agree on the signals, and for every peer the outbound channel refines its flat queue, conserves signals and mirrors those heard |
| XcmpRuns.IssuedSignalsAlternate | pallets/xcmp-queue/src/lib.rs:861-868 | from genesis, over every run in which no lookup of a page of the peer misses, the signals issued to it alternate, starting with Suspend; stamps and other senders do not matter |
| XcmpRuns.InboundPagesDecidedOnceInOrder | pallets/xcmp-queue/src/lib.rs:801-807 | from genesis, over every run in which the sender's own arrivals are harmless, its accepted bytes are decided once and in order, or still wait; other senders do not matter |
| XcmpRuns.NoVisitFindsNothing | pallets/xcmp-queue/src/lib.rs:842-845 | after every run from genesis, whatever arrived, a service call visits only channels that have pages |
| XcmpRuns.NoHandlingFindsNothing | pallets/xcmp-queue/src/lib.rs:842-845 | the same for the service call that ends the handling of any further batch |
| XcmpMessages.MessagesDecidedOnceInOrder | pallets/xcmp-queue/src/lib.rs:651-698 | from genesis, over every run in which the sender's own arrivals are harmless, the messages the codec cuts its accepted pages into are decided once each and in order, or still wait, garbage and interruptions included |
| XcmpMessages.CuttingUndoesPacking | pallets/xcmp-queue/src/lib.rs:466-536 | cutting the pages of any packing of messages gives the messages back, in order |
| XcmpMessages.MessagesArriveOnceInOrder | pallets/xcmp-queue/src/lib.rs:466-536 | for any runs of two chains, if the sender lost no data page and the pages delivered are the first of those emitted, harmless and with room, the messages decided and then waiting at the receiver are the first accepted at the sender, and all of them once all pages arrived |
| XcmpPeers.HeardIsDelivered | pallets/xcmp-queue/src/lib.rs:946-954 | over every run from genesis the signals heard from a peer are exactly those spelled by the pages of signals delivered from it |
| XcmpPeers.EmittedSpellIssued | pallets/xcmp-queue/src/lib.rs:1040-1046 | over every run from genesis, if no page of signals to a peer was lost, the pages emitted to it spell a prefix of the signals issued |
| XcmpPeers.NoAlarmIffDeliveredAlternate | pallets/xcmp-queue/src/lib.rs:892-921 | over every run no suspend or resume assertion fires for a peer if and only if the signals on its delivered pages alternate |
| XcmpPeers.HandshakeNeverFails | pallets/xcmp-queue/src/lib.rs:892-921 | for any runs of two chains, if the sender misses no lookup of the receiver, the pages of signals delivered are the first of those emitted and none was lost, no assertion fires and the channel state is the last signal delivered; whatever else arrives at the receiver |
| XcmpPeers.LostSuspendRaisesAlarm | pallets/xcmp-queue/src/lib.rs:904-921 | if the first signal that arrives is a Resume, the assertion fires |
| XcmpPeers.SuspendedStaysQuiet | pallets/xcmp-queue/src/lib.rs:1020-1022 | while nothing is heard from a peer, a suspended channel stays suspended and nothing leaves on it |
| XcmpPeers.MutualSuspensionIsForEver | pallets/xcmp-queue/src/lib.rs:1020-1022 | two chains that have suspended each other, with no page of signals under way, stay so over every interleaving of their runs |
| XcmpStandstill.StandstillIsReached | pallets/xcmp-queue/src/lib.rs:956-986 | such a state is reached from genesis by two chains that receive two pages of data each |
| XcmpPeers.PackedPageIsParsedBack | pallets/xcmp-queue/src/lib.rs:480-485 | a page packed by the sender is recognised and decided fragment by fragment at the receiver |
| XcmpRuns.SuspendedSignalsWait | pallets/xcmp-queue/src/lib.rs:538-540 | no batch sends a signal on a suspended channel |
| XcmpRuns.ResumeOrphansSignals | pallets/xcmp-queue/src/lib.rs:912-913 | resuming an empty channel removes its status while signals stay stored |
| XcmpRuns.ResumeKeepsAnnouncementIff | pallets/xcmp-queue/src/lib.rs:904-921 | announced signals stay announced over a Resume if and only if data pages wait too; they stay stored in any case |
| DmpPallet.DmpQueuePallet.TryServiceMessage | pallets/dmp-queue/src/lib.rs:222-255 | weight within the limit on success; a decoded message is done or turned down exactly as the executor answers, for what it answers; what does not decode costs nothing |
| DmpPallet.DmpQueuePallet.ServiceOnePage | pallets/dmp-queue/src/lib.rs:196-206 | the inner loop with its early return |
| DmpPallet.DmpQueuePallet.ServiceQueue | pallets/dmp-queue/src/lib.rs:186-215 | servicing the pages in order, putting a remainder back, resetting an empty window |
| DmpPallet.DmpQueuePallet.OnIdle | pallets/dmp-queue/src/lib.rs:124-127 | servicing within the given weight |
| DmpPallet.DmpQueuePallet.HandleMessage | pallets/dmp-queue/src/lib.rs:282-323 | one arrival: inline, parked, or queued together with everything after it |
| DmpPallet.DmpQueuePallet.HandleDmpMessages | pallets/dmp-queue/src/lib.rs:262-333 | a batch of arrivals after servicing the queue |
| DmpPallet.DmpQueuePallet.ServiceOverweight | pallets/dmp-queue/src/lib.rs:145-158 | an overweight message is removed exactly if it could be serviced |
| DmpQueue.HandleMessages | pallets/dmp-queue/src/lib.rs:262-333 | weight used, prior service included, is within the limit |
| DmpQueue.RunIsFifo | pallets/dmp-queue/src/lib.rs:186-333 | in every reachable state messages decided followed by messages queued are the messages received; parked messages keep their own index until serviced once |
| DmpQueue.QueueIsSuffix | pallets/dmp-queue/src/lib.rs:186-333 | from genesis the queue is a contiguous suffix of everything received |
| DmpQueue.DepositOk | pallets/dmp-queue/src/lib.rs:325-329 | the new page goes to a free index, behind all others |
| DmpQueue.HandlingIsAccounted | pallets/dmp-queue/src/lib.rs:262-333 | the weight reported is what servicing cost, and only messages above the individual maximum are parked |
| DmpVerdicts.HandlingIsExact | pallets/dmp-queue/src/lib.rs:262-333 | the queue and then the arrivals are worked through as one list: each message decided has the fate that answers the executor, given the limit less its own earlier answers; the report is the sum of these; a message is parked if and only if it is a reached arrival that asks for more than the individual maximum; and the list is given up exactly at the first message that may not be parked |
| DmpVerdicts.ServicingIsExact | pallets/dmp-queue/src/lib.rs:186-215 | the same for servicing alone: it stops exactly at the first message for which the executor asks for more |
| DmpVerdicts.OverweightIsExact | pallets/dmp-queue/src/lib.rs:145-158 | a message of the side store goes if and only if the executor runs it with the caller's limit, or it does not decode; the result is the executor's; all others stay |
| DmpQueue.ServicingProgressIff | pallets/dmp-queue/src/lib.rs:186-215 | servicing decides a message if and only if the first message of the queue can be serviced with the limit; otherwise nothing changes |
| MessageChain.HeadDeterminesQueue | primitives/parachain-inherent/src/lib.rs:73-78 | equal heads stand for equal message sequences |
| MessageChain.MessageQueueChain.ExtendHrmp | primitives/parachain-inherent/src/lib.rs:91-99 | the head becomes the fold extended by the message |
| MessageChain.MessageQueueChain.ExtendDownward | primitives/parachain-inherent/src/lib.rs:103-111 | the head becomes the fold extended by the message |
| MessageChain.HeadIsFoldOfHanded | pallets/parachain-system/src/lib.rs:804-842 | over all runs the stored head is the fold of everything handed to the handler |
| MessageChain.HandedIsRelaySequence | pallets/parachain-system/src/lib.rs:832-837 | after an accepted block everything handed over is exactly the relay's queue |
| MessageChain.ReportedIffDrained | pallets/parachain-system/src/lib.rs:817-839 | the reported count is right if and only if the handler drained the lazy iterator in every accepted block |
| HorizontalMessages.DispatchKeepsChannelOrderIff | pallets/parachain-system/src/lib.rs:867-887 | a channel is dispatched in submitted order if and only if its `sent_at` is non-decreasing |
| HorizontalMessages.AcceptedHeads | pallets/parachain-system/src/lib.rs:889-930 | heads are keyed by exactly the ingress senders, equal the relay's heads, and extend the old heads by what was dispatched |
| HorizontalMessages.AcceptedIff | pallets/parachain-system/src/lib.rs:853-930 | a block is accepted if and only if every inbox has an open channel and on every channel the old head extended by the dispatched messages is the relay's head |
| HorizontalMessages.DispatchIsMerge | pallets/parachain-system/src/lib.rs:867-887 | the dispatch order loses and adds nothing and goes by relay block and then by sender |
| HorizontalMessages.AcceptedWatermark | pallets/parachain-system/src/lib.rs:894-934 | the watermark is the largest `sent_at` dispatched, or the relay parent number |
| HorizontalMessages.DispatchedIsRelaySequence | pallets/parachain-system/src/lib.rs:853-937 | over all runs what was dispatched on a channel since it opened is the relay's queue of it |
| UpwardMessages.FitCountIsLongest | pallets/parachain-system/src/lib.rs:221-241 | a prefix fits count and size if and only if it is no longer than the one sent |
| UpwardMessages.SentIsLongest | pallets/parachain-system/src/lib.rs:221-241 | a first part of the pending messages is sent if and only if it is within the number per candidate and, with what the relay has queued, within its count and size |
| UpwardMessages.QueuedIff | pallets/parachain-system/src/lib.rs:1045-1062 | a message is queued unless it is larger than the known configuration allows |
| UpwardMessages.UpwardIsFifo | pallets/parachain-system/src/lib.rs:218-247 | over any run messages sent followed by messages pending are the accepted ones in order |
| CodeUpgrade.RunSettles | pallets/parachain-system/src/lib.rs:961-983 | over all runs at most one upgrade is outstanding and it is the last one scheduled |
| CodeUpgrade.CodeChangesOnlyOnGoAhead | pallets/parachain-system/src/lib.rs:375-397 | the code changes only in an accepted block with the go-ahead and only to the outstanding upgrade's code |
| CodeUpgrade.AcceptedIff | pallets/parachain-system/src/lib.rs:375-397 | a block is rejected if and only if it brings a go-ahead while no code is pending, and then changes nothing |
| CodeUpgrade.InherentIff | pallets/parachain-system/src/lib.rs:339-414 | the inherent panics if and only if it is the second of its block or gives a go-ahead to no code; it always settles the pending code when there is a signal |
| CodeUpgrade.ScheduledIff | pallets/parachain-system/src/lib.rs:961-983 | when a code can be scheduled, and the first reason when not |
| CodeUpgrade.AnnouncedIff | pallets/parachain-system/src/lib.rs:274-280 | an accepted block announces a code if and only if one was scheduled in it or after the `on_finalize` of the block before, and it is the last one scheduled |
| CodeUpgrade.AnnouncedAgainIff | pallets/parachain-system/src/lib.rs:274-280 | a block that schedules nothing announces a code if and only if the block before scheduled one after its `on_finalize`; both announce the same |
| CodeUpgrade.LateScheduleIsAnnouncedAgain | pallets/parachain-system/src/lib.rs:187-189 | code scheduled after `on_finalize` is announced by the next block too |
| CodeUpgrade.TransactionSchedulesIff | pallets/parachain-system/src/lib.rs:961-983 | between inherent and `on_finalize` a code can be scheduled if and only if the relay does not restrict, none is pending and it is small enough |
| CodeUpgrade.RestrictionForgottenAfterFinalize | pallets/parachain-system/src/lib.rs:187-189 | from `on_finalize` to the next `on_initialize` only a pending code and the size count, whatever the relay says |
| CodeUpgrade.EarlyScheduleIgnoresRestriction | pallets/parachain-system/src/lib.rs:187-189 | a restricted block refuses every code, and the next block, restricted too, accepts one scheduled before its `on_initialize` |
| ParachainSystem.BatchMeetsAcceptanceCriteria | pallets/parachain-system/src/lib.rs:249-268 | every page goes to an open channel with a free slot, free bytes and a sufficient message limit; count within the announced and current limits; recipients strictly ascend |
| ParachainSystem.ChannelStatusIs | pallets/parachain-system/src/lib.rs:717-757 | a channel is reported closed if and only if the relay has none, full if and only if it has no free slot, and otherwise with exactly its free bytes and message limit |
| ParachainSystem.DecidedAndQueuedAreRelaySequence | pallets/parachain-system/src/lib.rs:804-842 | downward messages decided, then queued, are exactly the relay's queue |
| ParachainSystem.Pallet.OnInitialize | pallets/parachain-system/src/lib.rs:271-323 | what is cleared, what is kept, and the announced number of messages |
| ParachainSystem.Pallet.ScheduleCodeUpgrade | pallets/parachain-system/src/lib.rs:961-983 | the first failing check, or the code pending and announced |
| ParachainSystem.Pallet.SendUpwardMessage | pallets/parachain-system/src/lib.rs:1032-1064 | a message is appended unless it is above the configured size |
| ParachainSystem.Pallet.HashDownward | pallets/parachain-system/src/lib.rs:817-822 | the fold of the submitted messages |
| ParachainSystem.Pallet.HashHorizontal | pallets/parachain-system/src/lib.rs:889-904 | running heads and watermark over the dispatch order |
| ParachainSystem.Pallet.CheckHeads | pallets/parachain-system/src/lib.rs:913-928 | every channel's head is compared and carried over |
| ParachainSystem.Pallet.ProcessInboundHorizontal | pallets/parachain-system/src/lib.rs:853-937 | the whole horizontal processing or a rejection |
| ParachainSystem.Pallet.CheckInherent | pallets/parachain-system/src/lib.rs:370-431 | the messages and the upgrade signal are acceptable, with the heads to store |
| ParachainSystem.Pallet.ProcessInherent | pallets/parachain-system/src/lib.rs:370-431 | accepted exactly if the messages are acceptable; then the new state of this pallet and of both queues; otherwise nothing changes |
| ParachainSystem.Pallet.ApplyRelayView | pallets/parachain-system/src/lib.rs:375-414 | pending code applied or discarded, relay's view stored |
| ParachainSystem.Pallet.DeliverDownward | pallets/parachain-system/src/lib.rs:811-842 | all messages reach the queue and the head stays the fold of everything the queue received |
| ParachainSystem.Pallet.DeliverHorizontal | pallets/parachain-system/src/lib.rs:905-934 | the dispatch order reaches the XCMP handler; heads and watermark are stored |
| ParachainSystem.Pallet.SetValidationData | pallets/parachain-system/src/lib.rs:339-431 | accepted exactly if the relay parent is the validators', its number may follow, the state proof can be read and the messages are acceptable; a rejected inherent changes nothing; relay numbers strictly increase under the production check; the downward head stays the fold of what the queue received |
| ParachainSystem.Pallet.FinalizeUpward | pallets/parachain-system/src/lib.rs:218-247 | nothing is lost or reordered, and a prefix of the pending messages fits the relay's limits if and only if it is no longer than what was sent |
| ParachainSystem.Pallet.OnFinalize | pallets/parachain-system/src/lib.rs:187-269 | accepted exactly if the inherent ran and the outbound batch can be built; then flags cleared, upward prefix and batch sent within both limits; a panic changes nothing |
| PovRecovery.ClearRemovesDescendants | client/pov-recovery/src/lib.rs:241-251 | clearing removes exactly the lists parked under the hash and its parked descendants |
| PovRecovery.ImportBatch | client/pov-recovery/src/lib.rs:344-377 | the batch opens with the block, every later block has its parent earlier, and exactly the non-descendants stay parked |
| PovRecovery.ImportContents | client/pov-recovery/src/lib.rs:353-373 | a block is in the batch exactly if it was queued or parked below a queued block |
| PovRecovery.ImportGenerations | client/pov-recovery/src/lib.rs:344-377 | a batch ascends by height: a whole generation goes before its children |
| PovRecovery.RunGood | client/pov-recovery/src/lib.rs:394-440 | the invariant of the event loop over every run |
| PovRecovery.NothingStranded | client/pov-recovery/src/lib.rs:156-342 | every parked block has an ancestor whose recovery is outstanding; every pending candidate has a timer |
| PovRecovery.QuietMeansEmpty | client/pov-recovery/src/lib.rs:394-440 | when no recovery is outstanding nothing is parked |
| PovRecoveryRuns.CandidateLife | client/pov-recovery/src/lib.rs:156-239 | event by event: a candidate becomes pending exactly if announced, stays so until imported, finalized over or recovered, has a timer set exactly if it was not pending, and its recovery starts exactly if the timer fires while it is pending |
| PovRecoveryRuns.PendingUntilSettled | client/pov-recovery/src/lib.rs:156-239 | over any run a pending candidate stays pending with a timer outstanding until it settles |
| PovRecoveryRuns.RecoveryIsExact | client/pov-recovery/src/lib.rs:254-342 | a recovery fails and exactly the blocks parked below the candidate go; or the parent is another candidate being recovered and the block is appended to its list, all other lists unchanged; or the block is imported with exactly what is parked below it |
| PovRecoveryRuns.ParkedUntil | client/pov-recovery/src/lib.rs:254-377 | over any run a parked block stays parked until it is imported or the recovery of an ancestor fails |
| PovRecoveryRuns.RecoveredBlockIsImported | client/pov-recovery/src/lib.rs:302-342 | a block recovered while its parent is being recovered is handed over by the time the parent's block is, after any events, unless the recovery of an ancestor failed in between |
| PovRecovery.ForeignBlockStrands | client/pov-recovery/src/lib.rs:296-310 | the last recovery strands the block parked under its candidate if and only if it delivers another block |
| PovRecovery.RecoveryReleasesIff | client/pov-recovery/src/lib.rs:296-377 | a recovered block that can be imported releases what is parked under the candidate if and only if it is the candidate or a parked ancestor of it |
| PovRecoveryService.ActiveCandidateRecovery.RecoverCandidate | client/pov-recovery/src/active_candidate_recovery.rs:46-91 | the hash is marked and a recovery added, even if there is one already |
| PovRecoveryService.ActiveCandidateRecovery.RecoveryEnded | client/pov-recovery/src/active_candidate_recovery.rs:101-110 | one recovery and the mark are removed |
| PovRecoveryService.PoVRecovery.HandlePendingCandidate | client/pov-recovery/src/lib.rs:156-217 | which candidates become pending, and that a timer starts only for new ones |
| PovRecoveryService.PoVRecovery.HandleBlockImported | client/pov-recovery/src/lib.rs:220-222 | an imported block is no longer pending |
| PovRecoveryService.PoVRecovery.HandleBlockFinalized | client/pov-recovery/src/lib.rs:225-227 | only candidates above the finalized number stay pending |
| PovRecoveryService.PoVRecovery.RecoverCandidate | client/pov-recovery/src/lib.rs:230-239 | a fired timer starts a recovery if the candidate is still pending |
| PovRecoveryService.PoVRecovery.ClearWaitingForParent | client/pov-recovery/src/lib.rs:243-251 | the worklist loop ends and removes exactly the parked descendants |
| PovRecoveryService.PoVRecovery.ImportBlock | client/pov-recovery/src/lib.rs:347-377 | the worklist loop ends; parents precede children; no descendant stays parked |
| PovRecoveryService.PoVRecovery.HandleCandidateRecovered | client/pov-recovery/src/lib.rs:254-342 | import, park or drop, by the status of the parent |
| CollatorSelection.RegisterBacked | pallets/collator-selection/src/lib.rs:350-386 | whatever other pallets hold reserved, registering reserves exactly the current bond on top and keeps every deposit backed |
| CollatorSelection.RemoveBacked | pallets/collator-selection/src/lib.rs:414-428 | an exit refunds exactly what was reserved at registration, down to what other pallets hold, and touches nobody else |
| CollatorSelection.KickAgreesWithStorage | pallets/collator-selection/src/lib.rs:443-469 | kicking while walking a snapshot returns the candidates that remain, in order, stops at the minimum and keeps every deposit backed |
| CollatorSelection.KickedIff | pallets/collator-selection/src/lib.rs:443-469 | at a new session a candidate goes if and only if it has authored nothing for the kick threshold and fewer stale ones are before it than may go; all others stay in order with their deposits |
| CollatorSelection.RegisteredIff | pallets/collator-selection/src/lib.rs:350-386 | exactly who can register; the deposit is the bond of the moment, and two kick thresholds pass before the newcomer is stale |
| CollatorSelection.LeftIff | pallets/collator-selection/src/lib.rs:395-404 | exactly who can leave; the others stay in order |
| CollatorSelection.RemovalForgets | pallets/collator-selection/src/lib.rs:414-428 | the record of authoring goes with the candidacy and with nothing else |
| CollatorSelection.AuthorIsFresh | pallets/collator-selection/src/lib.rs:477-493 | an author is not stale for a whole threshold, and nobody else's record changes |
| CollatorSelection.NewSessionIsRemaining | pallets/collator-selection/src/lib.rs:502-520 | the next collators are the invulnerables and the remaining candidates; the count is at least min(initial, MinCandidates) |
| CollatorSelection.RunBacked | pallets/collator-selection/src/lib.rs:335-428 | over any run with changing bonds and other pallets reserving and releasing at any time, every account's reserve is its stored deposit on top of theirs |
| CollatorSelection.TotalReservedIsTotalDeposits | pallets/collator-selection/src/lib.rs:350-428 | over any run, what is reserved beyond other pallets' holds sums up to the stored deposits |
| CollatorSelection.NoteAuthorConserves | pallets/collator-selection/src/lib.rs:477-493 | whether or not the transfer succeeds the total is conserved; the pot is never asked for more than it has and keeps its existential deposit if it had it; the author gains half of what is above that deposit, rounded down, or nothing |
| CollatorPallet.CollatorSelectionPallet.RegisterAsCandidate | pallets/collator-selection/src/lib.rs:350-386 | the first failing check or the new candidate; backing is kept whatever other pallets hold |
| CollatorPallet.CollatorSelectionPallet.TryRemoveCandidate | pallets/collator-selection/src/lib.rs:414-428 | removal with full refund of the deposit, leaving what other pallets hold reserved |
| CollatorPallet.CollatorSelectionPallet.LeaveIntent | pallets/collator-selection/src/lib.rs:395-404 | leaving is refused at the minimum |
| CollatorPallet.CollatorSelectionPallet.KickStaleCandidates | pallets/collator-selection/src/lib.rs:443-469 | the loop over the snapshot |
| CollatorPallet.CollatorSelectionPallet.NewSession | pallets/collator-selection/src/lib.rs:502-520 | collators returned and candidates kept; backing is kept whatever other pallets hold |
| CollatorPallet.CollatorSelectionPallet.NoteAuthor | pallets/collator-selection/src/lib.rs:477-493 | reward moved if the currency allows it; the block is recorded in any case |
| AssetTrader.RefundConservesIff | primitives/utility/src/lib.rs:180-195 | a refund is the price or all that is above the minimum balance, whichever is less; it loses nothing, leaves at least the minimum, and creates nothing if and only if the outstanding amount is at least that minimum, as far as 128 bits can say |
| AssetTrader.BuyConserves | primitives/utility/src/lib.rs:109-161 | a purchase takes exactly what it records, at least the price and the minimum; a refused one changes nothing |
| AssetTrader.BoughtIff | primitives/utility/src/lib.rs:109-161 | when weight is sold, for the price or the minimum balance, and when each refusal is given |
| AssetTrader.RefundIsExact | primitives/utility/src/lib.rs:163-221 | the weight goes down by what is asked for and was bought, and its price comes back as far as the minimum balance stays |
| AssetTrader.FeesConservedIff | primitives/utility/src/lib.rs:163-221 | over any refunds, refunded plus outstanding never falls, and stays what it was if and only if every refund that goes through finds at least the minimum balance of that moment; weight is conserved |
| AssetTrader.RefundsKeepMinimum | primitives/utility/src/lib.rs:180-195 | over any refunds, what is outstanding is at least the minimum balance at the last one that went through; calls that find no price do nothing |
| AssetTrader.PaidIsUnusedRefundedAndRevenueIff | primitives/utility/src/lib.rs:109-239 | from purchase to drop the payment equals unused plus refunds plus revenue if and only if every refund is covered; no more weight is refunded than was bought; the revenue is at least the minimum balance at the last refund, or at the purchase |
| AssetTrader.GrownMinimumCreatesMoney | primitives/utility/src/lib.rs:188-193 | a minimum balance above the outstanding amount makes a refund create money |
| AssetTraderService.TakeFirstAssetTrader.BuyWeight | primitives/utility/src/lib.rs:109-161 | all refusals, overflow included, and the recorded sale |
| AssetTraderService.TakeFirstAssetTrader.RefundWeight | primitives/utility/src/lib.rs:163-221 | the refund and the new record; the outstanding amount is conserved if it is at least the minimum |
| AssetTraderService.TakeFirstAssetTrader.Drop | primitives/utility/src/lib.rs:234-238 | the outstanding amount is handed over |

## Left out

- Weights are one number, the reference time; a second dimension is not modelled. Weights, overweight indices, downward page counters, block numbers and balances are unbounded; only the 16-bit outbound page counters, the 32-bit channel sizes and the 128-bit amounts of the trader are bounded, as in a release build.
- Events, logging, origins, configuration setters, storage migrations and benchmark weights: easy members.
- The blob format: its handler always refuses, so the blob loop is reduced to its effect, a drained page.
- XcmpArrivals.SortKeepsEntries: the source also compares states and pages of entries, here entries are sorted by sender only and several of one sender keep their order; every other result is about a sender with one entry, or does not depend on the order.
- The format of state proofs: reading one is a parameter that may fail, and everything read from it is an input.
- Sending a message while another is executed is modelled as any fragments sent in between (`XcmpRuns`); that an executed message may change other pallets is not.
- XcmpArrivals.HandleDelivers: each arrival of the sender must be harmless, which is exact for a single arrival (`HarmlessIff`); over a batch it is sufficient, since a page overwritten twice may end up as it was.
- XcmpPeers.HandshakeNeverFails: assumes that the sender misses no lookup of the receiver and that no page of signals was lost; the exact condition at the receiver is `NoAlarmIffDeliveredAlternate`.
- XcmpScheduler.FittingQueueIsDrained: sufficient, not necessary; it asks that senders and stamps are not repeated, that pages hold messages to the end and that one cost bounds them all.
- XcmpMessages.MessagesArriveOnceInOrder: assumes one codec throughout and fragments of the XCM format; that the receiver had room and that arrivals were harmless is sufficient, not necessary.
- XcmpStandstill.StandstillIsReached: the pages of data that flood each chain are taken as they come and not traced back to sends of the other chain.
- PovRecovery.NothingStranded: the recovered block is assumed to be the candidate's block, which the relay chain vouches for; timers, networking and the import queue itself are inputs.
- XcmpPallet.XcmpQueue.TakeOutboundMessages: works on copies of the storage maps that are stored at the end, so that a panic visibly leaves storage alone.
- CollatorSelection.NoteAuthorConserves: why the currency may refuse the transfer is a matter of another pallet; its answer is a parameter.
- Node start-up, RPC, consensus hooks, `validate_block` and the remaining small pallets.
