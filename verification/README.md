# A verified model of the llmq broker core

llmq is a single-threaded MQTT 3.1.1 broker. All its state lives in fixed arrays, rings and free stacks, and it
handles one event at a time. This project models that state and those events in Dafny 4.11 and proves what they keep,
over every input, every schedule of the kernel and every run.

Check everything with `dafny verify dfyconfig.toml`, or with all `.dfy` files on one command line and
`--resource-limit 2000000 --verification-time-limit 0`.

## How the project is laid out

The model has two layers. The value layer describes what each operation does to immutable records; the theorems about
runs are stated there. The object layer is the code as it is written, classes over arrays whose methods loop, probe,
shift and overwrite in place. Every method of the object layer is proved equal to its value-level operation, so the
theorems hold for the objects.

| part | value layer and theorems | object layer |
| --- | --- | --- |
| inflight table (`src/broker/client.h`) | Inflight, PacketIdIndex, PacketIds, Qos2, FatalWrite, Receipts | InflightTable |
| pools (`src/mem/msgbuf.h`, `src/mem/pool.h`) | Shared | PoolObjects |
| egress ring and engine (`src/broker/egress.h`, `src/broker/loop.h`) | Egress, Flush, Progress, Stream, EgressFaults, Connection, ClientStream, BrokerStream | ClientObjects, EgressEngine, EgressCompletion |
| QoS ceremonies (`src/broker/mqtt_fsm.h`) | Ceremony, Conservation, Acks, Timeouts, Dangling, Naming, DanglingSteps, DanglingRuns | CeremonyEngine |
| slots, fan-out, events (`src/broker/state.h`, `src/broker/handler.h`, `src/broker/loop.h`) | Broker, BrokerInv, SlotSteps, CloseSteps, Outcomes, FanoutSteps, FanoutQueues, Runs, Orphans, MessageBytes, Arrival, Reuse, BrokerTurns | BrokerObject |
| topic trie (`src/broker/trie.h`) | TrieModel, TrieSteps, TrieMatch, Delivery | TopicTrie |
| matcher and levels (`src/broker/subs.h`, `src/mqtt/packet.h`) | Topics | methods in Topics |
| codec and framing (`src/mqtt/packet.h`, `src/mqtt/publish.h`, `src/broker/loop.h`) | Packet, Publish, OnTheWire, Framing | methods in Packet and Publish, RecvWindow |
| tombstone map (`src/mem/hashmap.h`) | HashMap | class in HashMap |

Common, Probing and Bags hold shared vocabulary: integer widths, the cyclic probe walk and sums of multisets.

Three invariants carry the whole-run results. `Shared.Sound` says that each message off the free stack counts exactly
its owners and that every receive buffer is in exactly one place. `BrokerInv.Inv` adds the slot lists, the descriptor
map, the subscription generations and the receives the kernel still works on; `Runs.InitHolds` establishes it and
`Runs.StepKeeps` keeps it over every event. `TrieModel.TrieOk` ties node arrays, child tables, wildcard pointers and
the node free list to a map from nodes to filter paths. A ghost argument pair X, Y of the object-layer methods stands
for the references and buffers that the other clients account for.

The egress stream has one account per connection (`Connection.StreamInv`): bytes accepted, packets completed, everything
queued. `BrokerStream.EventStream` shows that every event of the whole broker keeps it for every connection, and
`BrokerStream.ConnectionStream` says what that means from the accept on.

The kernel is an environment: it picks descriptors, results, completion order and received bytes. Its only duties are
to hand out unused descriptors, to complete only receives and writes it was given, and to take at most the bytes a write
offers.

## What the proofs found

Each point is a place where the code departs from its evident intent. The model follows the code; a lemma says exactly
when the intended property holds, and another gives a state or a run in which it fails.

- A partly sent control packet at the head of the queue has its cursor applied twice (`src/broker/loop.h:381-382` and
  `src/broker/loop.h:464-466`), and a full batch of 64 PUBLISH segments wraps the 8-bit entry count to zero
  (`src/broker/loop.h:368`). The kernel is offered exactly the bytes still owed if and only if neither is the case
  (`Stream.OfferExactIff`; inputs in `EgressFaults.ResumedPubrelOffersLess` and `EgressFaults.FullBatchOffersNothing`).
  The wrapped write completes with zero bytes, which counts as fatal: the whole batch is thrown away, inflight entries
  included (`EgressFaults.WrappedBatchIsThrownAway`).
- QoS 2 reception is that of section 4.3.3 of MQTT Version 3.1.1 if and only if three guards hold at every event
  (`Qos2.ExactlyOnce`, `Qos2.GuardedIff`), and a message that is acknowledged reaches fan-out if and only if, besides, both
  pools have something left (`Receipts.ExactlyOnceOverRuns`, over runs of the whole broker).
  The general inflight lookup ignores direction (`src/broker/client.h:576-580`), so an outgoing entry with the same id
  hides an incoming one. A repeated PUBLISH is then forwarded again if and only if the table has room
  (`Qos2.RepeatForwardedIff`; run in `Qos2.ShadowForwardsTwice`), and a PUBREL is answered but leaves its receipt open, so that
  the next message with the id is acknowledged and never passed on (`Qos2.PubrelExact`; run in `Qos2.HiddenPubrelSwallows`).
  The fatal-error walk finds the entry to undo the same way (`src/broker/loop.h:531`): it erases a receipt if and only if the
  batch holds a first send with the same id and the receipt sits in its own direct slot (`FatalWrite.ReceiptLostIff`; runs in
  `Qos2.FailedWriteForwardsTwice` and, through the handlers, `FatalWrite.FailedWriteForgetsReceipt`). And with an empty pool
  (`src/broker/handler.h:359-376`) the packet is dropped after its receipt was recorded and answered
  (`Receipts.AcknowledgedReachesIff`; state in `Receipts.EmptyPoolSwallows`).
- The timeout sweep stops once it has found as many entries as are in use (`src/broker/mqtt_fsm.h:369`), but that number falls
  with every entry it gives up. While no message waits for its first send and the ring has room for every entry, an overdue entry
  is dealt with if and only if the entries in use before it, those out of retries counted twice, are fewer than all
  (`Timeouts.OverdueReachedIff`); of two overdue entries out of retries the second is left (`Timeouts.SecondSpentIsLeft`). With
  nothing out of retries every overdue entry is sent again (`Timeouts.AllResent`).
- The generation in a packet id moves on only when a message takes slot 0 (`src/broker/client.h:490-493`). Two messages in the
  same slot get the same id if and only if slot 0 was taken a multiple of 2^16 / max_inflight times in between, the zero fix-up
  of the last slot aside (`PacketIds.IdsOfOneSlot`); in particular while the message in slot 0 stays unacknowledged
  (`PacketIds.HeldSlotRepeatsId`), so that a repeated acknowledgement of the earlier message is taken for the later one.
- A slot remembers one orphaned receive buffer and overwrites it unchecked (`src/broker/state.h:531`,
  `src/broker/state.h:569`). A close keeps the invariants if and only if no receive is outstanding while an orphan is
  already waiting (`CloseSteps.CloseKeepsIff`); five events reach such a state (`Orphans.OrphanOverwriteIsReachable`).
- A receive that completes while its own connection is closing frees whatever orphan the slot has
  (`src/broker/loop.h:713-722`), even when an older receive still targets it (`CloseSteps.RecvDoneKeepsIff`); six events
  reach such a state (`Orphans.ForeignOrphanIsReachable`).
- A segment that carries a packet id owns no reference (`src/broker/loop.h:268-280`, `src/broker/mqtt_fsm.h:180`), so a
  message can be freed that a queue, or a write in flight, still names. With no such segment in a client's queue before, an
  event of the broker creates one if and only if it gives up all references of a message that is queued there afterwards
  (`DanglingSteps.EventDanglesIff`). From the state before the event: an acknowledgement does if and only if it is for an
  entry with this message and the message counts one reference (`DanglingSteps.AckForsakesIff`), a completion or a failed
  write if and only if the message counts just the references of the segments and entries it ends
  (`DanglingSteps.WriteForsakesIff`), a close if and only if the client owns all of them (`DanglingSteps.CloseForsakesIff`); a
  PUBLISH never does (`DanglingSteps.PublishForsakesNothing`). Runs: `DanglingRuns.ReusableIsReachable` (acknowledgement),
  `DanglingRuns.FailedWriteRun` (failed write, and the freed message's bytes are handed to the kernel in the same call),
  `DanglingRuns.OtherClientDangles` (the queue of another client).
  As long as no dangling segment names a message slot or a buffer that is used again, a connection's byte stream is right
  (`BrokerStream.ConnectionStream`). Where the buffer is used again, some bytes change what the segment puts on the wire
  (`Reuse.OverwriteIff`); if it is the next one to be handed out, three events do (`Reuse.DanglingIsOverwritten`), ten from
  broker_init on (`DanglingRuns.OverwrittenFromInit`).
- A level longer than 64 bytes is cut when a filter is stored (`src/broker/trie.h:217`), so filters share a node if and
  only if their levels agree in the first 64 bytes (`Delivery.SharedNodeIff`, `Delivery.LongLevelsCollide`). A filter delivers
  a topic that it does not match as sent, or misses one that it does, if and only if it has such a level and the topic matches
  it as stored, or as sent (`Delivery.CutDeliversIff`; for all filters of a client, `Delivery.WantedIsAskedIff`).
- `topic_matches` is level-by-level matching except that a '+' at the end of a filter does not take an empty last level;
  the two differ exactly there (`Topics.MatchersDifferIff`, for example `Topics.TrailingDelimiterDiffers`). In the trie a
  trailing delimiter yields no empty last level, and '#' also takes the parent level, which in `topic_matches` it does not
  (`Topics.LevelsAreSplit`, `Topics.ParentLevelOnly`); `Delivery.TrieAgreesWithMatcher` says exactly where the two agree.

## Model

| member | source | states |
|---|---|---|
| Inflight.AssignedIdLocates | src/broker/client.h:462-467 | for every generation, 16-bit wrap-around and zero fix-up included, the assigned id is not zero and (id - 1) mod max_inflight is its slot; which id it is, PacketIds.IdsOverRuns says |
| Inflight.SearchFinds | src/broker/client.h:450-457 | the wrap-around search stops at a free slot no farther from the hint than any given free slot |
| Inflight.CountDecides | src/broker/client.h:446-448 | the number of non-FREE slots, both directions together, is below the limit exactly when a free slot exists and zero exactly when all are free |
| Inflight.RoomIsFound | src/broker/client.h:446-460 | with a right counter the search ends on a free slot exactly when the count is below the limit, so the second failure test never fires |
| Inflight.AllocKeeps | src/broker/client.h:444-496 | allocation succeeds exactly when there is room, takes a free slot, gives an id no other outgoing entry has and that is found again at this slot, and leaves all other entries alone; which slot is PacketIds.SendGoesRound, which id PacketIds.IdsOverRuns |
| Inflight.TrackKeeps | src/broker/client.h:501-552 | tracking keeps the table consistent, succeeds exactly when there is room, ends with the id tracked and touches at most one free slot |
| Inflight.FreeSlotKeeps | src/broker/client.h:601-613 | freeing a slot keeps the counter exact and changes no other entry |
| Inflight.FreeAllKeeps | src/broker/client.h:617-634 | free_all leaves a consistent table with nothing in flight, early exit included |
| Inflight.OutgoingIdsLocate | src/broker/client.h:557-566 | concurrent outgoing ids are distinct and each is found by direct indexing at its own slot |
| PacketIds.SendGoesRound | src/broker/client.h:444-496 | a send takes the first free slot at or behind the hint, wrapping around, waits there for the acknowledgement of its QoS, and moves the hint behind it; it is refused, and changes nothing, exactly when no slot is free |
| PacketIds.ReceiptGoesRound | src/broker/client.h:501-552 | the receipt of a new id takes the first free slot behind the same hint, waits there for PUBREL, moves the hint and never the generation |
| PacketIds.GenerationCounts | src/broker/client.h:490-493 | over every run of events on a table the generation has moved by the number of messages that took slot 0, in 16 bits |
| PacketIds.IdsOverRuns | src/broker/client.h:462-493 | from a blank table on, over every run: the message that slot s gets has the id s + 1 + t * max_inflight in 16 bits, or s + 1 where that is zero, with t the number of messages that took slot 0 before |
| PacketIds.SameIdIff | src/broker/client.h:462-467 | the ids of a slot start again exactly after 2^16 / max_inflight messages in slot 0, but for the zero fix-up of the last slot, which repeats its first id |
| PacketIds.IdsOfOneSlot | src/broker/client.h:462-493 | two messages in one slot, anything in between: the same id while slot 0 is not taken, different ids unless it was taken a multiple of 2^16 / max_inflight times, with the exact exception for the last slot |
| PacketIds.FirstIds | src/broker/client.h:462-493 | with 64 slots the first two ids are 1 and 66 |
| PacketIds.NextIdIsNew | src/broker/client.h:462-493 | with one slot the id after an acknowledged 1 is 2 |
| PacketIds.HeldSlotRepeatsId | src/broker/client.h:490-493 | a run in which a slot gives the id 4 twice in a row, because slot 0 is held |
| PacketIds.TableOverRuns | src/broker/loop.h:780-820 | over every run of the broker that a connection lives through its table runs through events of the table, so what holds over runs of a table holds in the broker |
| PacketIds.IdsInBroker | src/broker/loop.h:780-820 | from the accept on every message in flight has an id of its own slot, for some number of messages in slot 0 so far |
| PacketIdIndex.SomeCellIsEmpty | src/broker/client.h:381-392 | the table of 2 * max_inflight cells that holds each tracked slot at most once always has an EMPTY cell, which ends every probe and shift loop |
| PacketIdIndex.InsertKeeps | src/broker/client.h:381-392 | putting a slot into the first EMPTY cell of its walk keeps every entry reachable from its natural cell |
| PacketIdIndex.MissMeansUntracked | src/broker/client.h:582-596 | meeting EMPTY on the walk from an id's natural cell means no incoming entry has the id |
| PacketIdIndex.ShiftStart | src/broker/client.h:405-409 | emptying the found cell breaks only paths that cross it, the state the shift loop starts from |
| PacketIdIndex.ShiftStay | src/broker/client.h:416-425 | an entry the loop leaves in place is still reachable |
| PacketIdIndex.ShiftMove | src/broker/client.h:416-425 | moving an entry into the gap keeps all paths and makes its old cell the gap, across the wrap-around as well |
| PacketIdIndex.ShiftEnd | src/broker/client.h:412-426 | at the end of the cluster every tracked slot but the removed one is reachable again |
| InflightTable.Table.constructor | src/broker/client.h:216-230 | a new table is empty, consistent and indexed |
| InflightTable.Table.AllocOutgoing | src/broker/client.h:444-496 | the in-place allocation does what the value-level one does, generation and hint included, and keeps table and hash index valid; the ids of its runs are in PacketIds.IdsOverRuns |
| InflightTable.Table.TrackIncoming | src/broker/client.h:501-552 | the in-place tracking, hash insertion included, does what the value-level one does and keeps the probe invariant |
| InflightTable.Table.Lookup | src/broker/client.h:572-597 | direct slot first, then the hash table: the result is the first entry the value-level search over all slots finds |
| InflightTable.Table.Probe | src/broker/client.h:582-596 | probing finds a tracked id at its slot and returns -1 exactly when no incoming entry has it |
| InflightTable.Table.Release | src/broker/client.h:601-613 | freeing removes exactly this slot from the hash table and keeps all others reachable |
| InflightTable.Table.ReleaseAll | src/broker/client.h:617-634 | afterwards every hash cell is EMPTY, also on the early exit, because a zero count means an empty table |
| InflightTable.Table.HashRemove | src/broker/client.h:397-431 | backward-shift deletion ends with an index of exactly the remaining incoming entries |
| InflightTable.ShiftBack | src/broker/client.h:406-427 | the endless shift loop terminates and restores the probe invariant |
| Qos2.OnPublish | src/broker/mqtt_fsm.h:47-81 | the publisher ceremony in place: forward flag, reply and new table are those of the value-level step, which Qos2.WithoutReceipt and Qos2.PublishExact say for every QoS |
| Qos2.OnPubrel | src/broker/mqtt_fsm.h:86-96 | PUBREL in place; the answer is always PUBCOMP |
| Qos2.LookupSeesReceipt | src/broker/client.h:572-597 | the direction-blind lookup finds a receipt in progress exactly when no outgoing entry hides its id |
| Qos2.WithoutReceipt | src/broker/mqtt_fsm.h:49-57 | whatever the table looks like, QoS 0 goes to fan-out unanswered, QoS 1 goes to fan-out answered by PUBACK with its own id, both leave the table alone, and QoS 3 does neither |
| Qos2.PublishExact | src/broker/mqtt_fsm.h:59-76 | a QoS 2 PUBLISH goes to fan-out exactly when there is room and no visible receipt in progress, and adds exactly its own id |
| Qos2.PubrelExact | src/broker/mqtt_fsm.h:86-96 | PUBREL ends exactly its own id, or nothing when the id is hidden |
| Qos2.UndoLosesIff | src/broker/loop.h:525-537 | undoing the first sends of a failed batch ends a receipt if and only if the batch holds its id and the receipt sits in its own direct slot; the table stays consistent |
| Qos2.ReceiptsBalance | src/broker/mqtt_fsm.h:47-96 | over every run, failed writes included, PUBLISH packets that pass equal PUBRELs that ended a receipt plus receipts erased by failed writes plus repetitions, up to the receipts open before and after |
| Qos2.GuardedIff | src/broker/mqtt_fsm.h:47-96 | in a run no receipt is erased, repeated or left open by its PUBREL if and only if no PUBLISH meets its open receipt hidden with room left, no PUBREL meets it hidden at all, and no failed write holds the id of a receipt in its direct slot |
| Qos2.ExactlyOnce | src/broker/mqtt_fsm.h:47-96 | over every run the table does at each event what the receiver of section 4.3.3 does, passing on an answered PUBLISH exactly when it is not open, if and only if every event meets the three guards; then PUBLISH packets that pass and completed handshakes balance |
| Qos2.AtMostOnceBetweenPubrels | src/broker/mqtt_fsm.h:47-96 | between two PUBRELs for an id at most one PUBLISH with it is let through under the guards, and one more for each loss or repetition without them |
| Qos2.RepeatForwardedIff | src/broker/mqtt_fsm.h:61-75 | a repeated PUBLISH is wrongly forwarded if and only if its id is hidden and the table has room |
| Qos2.ShadowForwardsTwice | src/broker/mqtt_fsm.h:61-75 | a concrete run in which one id is forwarded twice |
| Qos2.FailedWriteForwardsTwice | src/broker/loop.h:528-541 | a concrete run without any hidden id in which a failed write erases a receipt and one id is forwarded twice |
| Qos2.HiddenPubrelSwallows | src/broker/mqtt_fsm.h:86-96 | a concrete run with nothing lost or repeated in which two handshakes are completed and one message passes, because the first PUBREL found its receipt hidden |
| FatalWrite.FailUndoes | src/broker/loop.h:522-541 | the fatal-error walk takes the whole batch off the queue and undoes exactly its first sends, in order |
| FatalWrite.ReceiptLostIff | src/broker/loop.h:528-537 | a failed write erases the receipt of an id if and only if its batch holds a PUBLISH of QoS 1 or 2 without DUP with this packet id and the receipt sits in its own direct slot |
| FatalWrite.FailedWriteForgetsReceipt | src/broker/loop.h:522-541 | through the handlers: PUBACK before the completion, an incoming QoS 2 PUBLISH with the same id, any fatal result, and the repeated PUBLISH is forwarded again |
| Receipts.StepTable | src/broker/loop.h:780-820 | over each event of the broker the table of a living connection makes at most one step that concerns receipts, the one this event stands for, and then only steps on outgoing entries |
| Receipts.AcknowledgedReachesIff | src/broker/handler.h:350-377 | an acknowledged QoS 2 PUBLISH without a receipt reaches fan-out if and only if both pools have something left; otherwise it is recorded and answered, and its repetition is suppressed unless an outgoing entry hides it |
| Receipts.EmptyPoolSwallows | src/broker/handler.h:358-365 | such a state is one accept away from any broker without messages |
| Receipts.EventOnce | src/broker/mqtt_fsm.h:47-96 | one broker event keeps a client in step with the receiver of section 4.3.3, fan-out included, if and only if it meets the guard |
| Receipts.ExactlyOnceOverRuns | src/broker/handler.h:336-426 | over every run that a connection lives through, what it publishes with an id is fanned out as that receiver delivers it if and only if every event meets the guard; then fan-outs and completed handshakes balance |
| Packet.ReadFixedHeader | src/mqtt/packet.h:153-188 | the parsing loop computes the specified header, Incomplete or Malformed |
| Packet.VbiFits | src/mqtt/packet.h:161-180 | the remaining length read from at most four bytes stays below 2^28, so the 32-bit arithmetic never wraps |
| Packet.WriteRemainingLen | src/mqtt/packet.h:261-274 | the encoding loop writes exactly the variable byte integer and nothing behind it |
| Packet.WriteFixedHeader | src/mqtt/packet.h:276-279 | type, flags and remaining length, and nothing else is written |
| Packet.VbiSize | src/mqtt/publish.h:111-118 | one to four bytes by the limits 127, 16383, 2097151 and 2^28 |
| Packet.HeaderRoundTrip | src/mqtt/packet.h:153-188 | parsing an encoded fixed header gives back type, flags, length and size, whatever follows, for every length below 2^28 |
| Packet.CompleteStable | src/mqtt/packet.h:192-208 | more bytes never change the verdict on a packet that was complete or malformed |
| Publish.ReadPublish | src/mqtt/publish.h:46-97 | the parser's result, and that topic and payload are the slices of the body at the returned offsets |
| Publish.WritePublish | src/mqtt/publish.h:125-168 | the encoder writes exactly the encoded packet, with a non-zero override as packet id |
| Publish.BodyRoundTrip | src/mqtt/publish.h:46-97 | parsing the encoded variable header and payload of a valid message gives the message back |
| Publish.ParsedIsEncoded | src/mqtt/publish.h:46-97 | whatever the parser accepts is valid and is exactly what the encoder writes for it |
| Publish.PublishRoundTrip | src/mqtt/publish.h:125-168 | the whole packet: fixed header, length and fields come back whatever bytes follow |
| Publish.SizeIsEncodedLength | src/mqtt/publish.h:104-121 | mqtt_publish_size is the encoded length if and only if the remaining length is below 2^28 |
| OnTheWire.VbiIsBase128 | src/mqtt/packet.h:261-274 | the remaining length is written in base 128, least significant byte first, in as few bytes as it takes, with bit 7 on every byte but the last |
| OnTheWire.PublishBytes | src/mqtt/publish.h:125-168 | a PUBLISH byte by byte for every flag, QoS and id: type 3, DUP in bit 3, QoS in bits 2-1, RETAIN in bit 0, high bytes first |
| Shared.RefKeeps | src/mem/msgbuf.h:156-161 | taking a reference to an owned message counts one owner more, without wrapping |
| Shared.ReleaseKeeps | src/broker/loop.h:268-280 | giving up a reference never passes zero; the last owner, and only the last, frees the message and its buffer, once |
| Shared.AllFreeWhenUnowned | src/mem/msgbuf.h:147-153 | with no owner left the message pool is full and every buffer not held by a client is free |
| PoolObjects.MsgPool.Alloc | src/mem/msgbuf.h:127-144 | pops the top index and resets its record, or reports an empty pool and changes nothing |
| PoolObjects.BufPool.Alloc | src/mem/pool.h:72-83 | pops the top index, or reports an empty pool |
| PoolObjects.BufPool.FreeIndex | src/mem/pool.h:86-92 | pushes a valid index and ignores any other |
| PoolObjects.Resources.Release | src/broker/loop.h:268-280 | the in-place release does what the value-level one does |
| PoolObjects.OwnedHasRoom | src/mem/msgbuf.h:147-153 | the unchecked pushes of a release never overflow either free stack: what is owned is not on a stack |
| Egress.ComputeWireLen | src/broker/egress.h:59-66 | the seven-bit loop gives one byte plus the variable byte integer plus the remaining length |
| Egress.WireLenRoundTrip | src/broker/egress.h:70-80 | the wire length stored little-endian in the ctrl bytes is loaded back |
| Egress.WireIsEncodedPublish | src/broker/loop.h:416-454 | header, topic, packet id and payload pieces concatenate to the packet the encoder writes; their length is the precomputed wire length and mqtt_publish_size, and the header fits seven bytes |
| Egress.RefsBounded | src/broker/egress.h:40-57 | a client never owns more references than ring places plus inflight slots |
| ClientObjects.EgressRing.Push | src/broker/egress.h:48-51 | on the power-of-two ring a push appends to the queue, across the wrap-around |
| ClientObjects.EgressRing.Pop | src/broker/egress.h:53-56 | a pop removes the oldest segment |
| ClientObjects.ClientSlot.Init | src/broker/client.h:195-239 | a slot reused for a new client has a new generation, empty queue and table, and keeps its orphan |
| EgressEngine.Clean | src/broker/loop.h:339-358 | the pre-clean loop discards exactly the unsendable heads, releasing what they own |
| EgressEngine.Materialize | src/broker/loop.h:416-434 | the header bytes built in place are the encoder's fixed header and topic length |
| EgressEngine.Batch | src/broker/loop.h:365-458 | the batch loop assigns packet ids, takes inflight slots and collects entries exactly as specified, and stops where it must |
| EgressEngine.SkipSent | src/broker/loop.h:311-326 | the cursor loop equals its recursive specification |
| EgressEngine.FlushEgress | src/broker/loop.h:335-477 | egress_flush in place: pools, client, code and offered entries are those of the value-level flush |
| EgressCompletion.WalkBatch | src/broker/loop.h:504-522 | the completion walk in place equals its specification for every number of bytes written |
| EgressCompletion.FailBatch | src/broker/loop.h:528-541 | the fatal-error walk in place, inflight undo included |
| EgressCompletion.HandleEgressCqe | src/broker/loop.h:483-549 | the completion handler in place, chained flush included; a completion for another generation or descriptor changes nothing |
| Progress.FlushSubmitsIff | src/broker/loop.h:335-477 | a flush submits a write, for one submission entry, exactly when the client is active with no write in flight, the first segment not dead has bytes and an id or a free inflight slot, and an entry is left; it reports a full queue exactly when only the entry is missing |
| Progress.CompletionSubmitsIff | src/broker/loop.h:483-549 | a completion of the client's own write submits the next one exactly when a flush of what is queued then can send, whatever its result was; a completion for another generation or descriptor changes nothing |
| Progress.ShortWriteGoesOn | src/broker/loop.h:499-548 | a write that took fewer bytes than the head has left is followed by the next one in the same call |
| Progress.TransientOrFatal | src/broker/loop.h:523-541 | errors 11 and 4 only end the write; any other result that is not positive takes the whole batch off the queue |
| Progress.BatchExact | src/broker/loop.h:363-413 | a batch runs to the first segment that cannot join, the first that needs an id with all slots taken, the end of the queue, or 64 segments; each first send in it takes one slot and gets an id, and nothing else changes |
| Progress.BatchEntries | src/broker/loop.h:394-413 | each first send has an entry with its id, message and QoS that waits 30 seconds from now with no retry counted, and entries in use before stay |
| Stream.CursorDrops | src/broker/loop.h:311-326 | applying a cursor drops exactly that many bytes |
| Stream.OfferExactIff | src/broker/loop.h:363-470 | the kernel is offered exactly the bytes still owed if and only if the batch is not 64 PUBLISH segments and its head is not a partly sent control packet |
| EgressFaults.FullBatchOffersNothing | src/broker/loop.h:363-470 | 64 ready PUBLISH segments in a row are a queue in good order of which the kernel is offered no byte |
| EgressFaults.ResumedPubrelOffersLess | src/broker/loop.h:379-466 | a PUBREL of which a write took the first bytes is offered short by as many bytes again |
| EgressFaults.WrappedBatchIsThrownAway | src/broker/loop.h:499-541 | the empty write of a wrapped batch completes with zero, takes the fatal branch, drops all 64 segments and leaves no inflight entry of its first sends |
| Stream.WalkExact | src/broker/loop.h:504-522 | however short the write, the bytes it took are the packets it completed plus the new head's first bytes |
| Stream.WalkTakesPrefix | src/broker/loop.h:504-522 | the completed packets are those of the first segments and the walk leaves the others in order |
| Stream.WireEncodes | src/broker/loop.h:416-454 | a segment ready to be sent puts the encoding of its packet on the wire |
| Connection.FlushKeepsStream | src/broker/loop.h:335-477 | a flush keeps the byte account of a connection |
| Connection.AnswerKeeps | src/broker/loop.h:483-549 | a completion that takes any number of the bytes offered, or reports EAGAIN or EINTR, keeps the byte account, unless it stops inside a control packet |
| Connection.HarmlessKeepsBytes | src/broker/handler.h:82-110 | releases, and whatever leaves alone the live messages and those that dangling segments of the queue name, keep the bytes of every queued packet |
| Connection.Run | src/broker/loop.h:335-549 | over every sequence of enqueues, flushes, completions and harmless changes elsewhere the bytes accepted are whole packets plus the head's first cursor bytes, the packets encode what was queued, in that order, and only the head has a non-zero cursor |
| ClientStream.DeliveryMove | src/broker/mqtt_fsm.h:108-169 | a delivery is a move of the connection: one packet joins the queue or nothing happens, no byte is accepted and no packet lost |
| ClientStream.SweepMove | src/broker/mqtt_fsm.h:361-388 | so is a whole timeout sweep, retransmissions included |
| BrokerStream.EventStream | src/broker/loop.h:780-820 | every event of the whole broker keeps the byte account of every connection: it accepts exactly what its own completion reports and completes exactly those packets |
| BrokerStream.StreamOverRuns | src/broker/loop.h:780-820 | over every run of the broker the account of a connection grows by exactly the bytes accepted and the packets queued for it |
| BrokerStream.ConnectionStream | src/broker/loop.h:780-820 | from its accept on, in every run of the broker: what the kernel accepted for a connection is the encodings of the packets queued for it first, in order, plus the head's first bytes, and the rest is still queued in order |
| BrokerStream.AcceptedIsFresh | src/broker/state.h:429-455 | an accepted client starts with nothing queued, written or in flight, so the stream theorem applies to it |
| Conservation.FlushKeeps | src/broker/loop.h:335-477 | a flush moves references from segments to inflight entries and loses none |
| Conservation.CompleteKeeps | src/broker/loop.h:504-522 | completion releases exactly what the completed segments own |
| Conservation.EgressCqeKeeps | src/broker/loop.h:483-549 | the whole completion handler conserves references |
| Conservation.StartDeliveryKeeps | src/broker/mqtt_fsm.h:108-169 | delivery conserves references and is accepted exactly when the ring is not full; Acks.DeliveryExact says what it does |
| Conservation.PubackKeeps | src/broker/mqtt_fsm.h:174-190 | PUBACK conserves references; Acks.PubackExact says which one it gives up |
| Conservation.PubrecKeeps | src/broker/mqtt_fsm.h:219-249 | PUBREC conserves references; Acks.PubrecExact says which one it gives up |
| Conservation.TimeoutKeeps | src/broker/mqtt_fsm.h:265-309 | a timeout conserves references; Acks.TimeoutExact says what it does |
| Conservation.SweepClientKeeps | src/broker/mqtt_fsm.h:361-388 | the sweep conserves references although its bound changes while it loops |
| Conservation.DisconnectReleases | src/broker/mqtt_fsm.h:320-353 | a disconnecting client gives up exactly the references it owns; the loop that stops at the counter misses none |
| Conservation.AckFreesIff | src/broker/mqtt_fsm.h:180-181 | after an acknowledgement the entry's message is live if and only if somebody else owns it, and the queue is as it was |
| Acks.AwaitingIff | src/broker/mqtt_fsm.h:176-179 | an acknowledgement is for a slot if and only if the slot holds the outgoing entry in the awaited state with this id; it is for none if and only if there is no such entry |
| Acks.FinishExact | src/broker/mqtt_fsm.h:180-181 | finishing an entry frees it, gives up its reference, lowers the counter by one and leaves every other entry, both halves, as it was |
| Acks.PubackExact | src/broker/mqtt_fsm.h:174-190 | PUBACK changes nothing without a waiting entry; otherwise it frees exactly that entry with its reference and kicks the queue, and every other entry in use stays |
| Acks.PubrecExact | src/broker/mqtt_fsm.h:219-249 | PUBREC frees exactly the waiting entry, if any, and in both cases puts PUBREL with its id last in the queue unless the ring is full; every other entry in use stays; what its bytes are, OnTheWire.PubrelOnTheWire says |
| OnTheWire.PubrelOnTheWire | src/broker/mqtt_fsm.h:194-249 | after a PUBREC, entry or not, the last segment of a ring that was not full is four unsent bytes that the parser reads as type 6, flags 0010, remaining length 2, and the acknowledged id |
| Acks.PubackFlushes | src/broker/mqtt_fsm.h:183-190 | after a PUBACK that found its entry the queue is flushed in the same call |
| Acks.PubrecFlushes | src/broker/mqtt_fsm.h:219-249 | after every PUBREC, with an entry or without, the queue is flushed with the PUBREL in it |
| Acks.DeliveryExact | src/broker/mqtt_fsm.h:108-169 | a full ring leaves everything as it was, the count included; otherwise one reference more is owned and counted, by a segment of this message and QoS queued last |
| Acks.TimeoutExact | src/broker/mqtt_fsm.h:265-309 | after the last retry or with a full ring the entry is freed with its reference; otherwise it stays, one retry older with a new deadline, and its PUBLISH is queued last with DUP, owning nothing |
| Timeouts.NothingOverdue | src/broker/mqtt_fsm.h:361-388 | a sweep changes nothing if no outgoing entry has 0 < deadline < now, and nothing of a client that is not active |
| Timeouts.TimeLeftIsSpared | src/broker/mqtt_fsm.h:376-379 | an entry with deadline 0, with now <= deadline, or of the receiving direction keeps both halves through a whole sweep, whatever the sweep does to others |
| Timeouts.FirstOverdue | src/broker/mqtt_fsm.h:361-388 | the first overdue entry is always reached: with fewer than three retries and room in the ring it ends with one retry more and a deadline 30 seconds from now, otherwise it is freed with its reference |
| Timeouts.OverdueReachedIff | src/broker/mqtt_fsm.h:369-385 | an overdue entry is retried or freed exactly when the entries in use before it, spent ones counted twice, are fewer than all, and otherwise stays as it is |
| Timeouts.AllResent | src/broker/mqtt_fsm.h:361-388 | with no entry out of retries every overdue entry is sent again |
| Timeouts.SecondSpentIsLeft | src/broker/mqtt_fsm.h:369-385 | with two overdue entries out of retries the first is freed and the sweep ends before the second |
| Timeouts.EachIsSwept | src/broker/mqtt_fsm.h:392-404 | the sweep over all slots sweeps each client exactly once, with the clock it began with |
| Dangling.FinishDanglesIff | src/broker/mqtt_fsm.h:180-181 | for the client's own queue and for that of any other: with no dangling segment before, finishing an entry creates one if and only if the queue names its message and the message counts one reference |
| Dangling.AckDuringWriteIff | src/broker/mqtt_fsm.h:174-190 | an acknowledgement before the completion takes the message of a segment being written away if and only if the message counts one reference |
| Dangling.CloseFreesIff | src/broker/mqtt_fsm.h:320-353 | a close frees a live message, whatever write still names it, if and only if all its references are the client's |
| Dangling.StepDanglesIff | src/broker/loop.h:268-280 | any step of one client that keeps the books makes a queue dangle, its own or any other, if and only if the queue names a message all of whose references the step gives up |
| Dangling.DisconnectDanglesIff | src/broker/mqtt_fsm.h:320-353 | a disconnect makes a queue dangle if and only if it names a message all of whose references are the client's |
| Dangling.DropBaseDanglesIff | src/broker/handler.h:396-426 | the release of the base reference makes a queue dangle if and only if it names the message and nobody else took a reference |
| Dangling.FailDanglesIff | src/broker/loop.h:525-540 | a failed write makes a queue dangle if and only if it names a message that counts just the references the walk gives up, those of the undone entries and of the QoS 0 segments |
| Dangling.CompletionDanglesIff | src/broker/loop.h:504-522 | a completed write makes a queue dangle if and only if it names a message that counts just the QoS 0 segments it completes |
| DanglingSteps.EventDanglesIff | src/broker/loop.h:780-820 | every event, every connected client: with nothing dangling before, its queue dangles afterwards if and only if it then names a message that was live and all of whose references the event gives up; what the event itself queues never dangles |
| DanglingSteps.SiteForsakesIff | src/broker/loop.h:780-820 | an event of one client gives up all references of a message if and only if this client does |
| DanglingSteps.AckForsakesIff | src/broker/mqtt_fsm.h:174-249 | PUBACK and PUBREC do if and only if the acknowledged entry names the message and it counts one reference |
| DanglingSteps.WriteForsakesIff | src/broker/loop.h:483-549 | a completion, failed or not, does if and only if the message counts just the references of the completed QoS 0 segments, or those the fatal-error walk gives up |
| DanglingSteps.CloseForsakesIff | src/broker/loop.h:758-778 | a close does if and only if the client owns all references that the message counts |
| DanglingSteps.QuietForsakesNothing | src/broker/loop.h:780-820 | accepts, receives, copies, subscriptions, PUBREL, the start of a close and the clock never do |
| DanglingSteps.PublishForsakesNothing | src/broker/handler.h:336-426 | nor does a PUBLISH, however many it is delivered to |
| DanglingSteps.NeverDanglesIff | src/broker/loop.h:780-820 | over every run a connection lives through, nothing in its queue ever dangles if and only if no event gives up all references of a message then queued there |
| DanglingSteps.SparedIsGuarded | src/broker/loop.h:780-820 | in such a run the guard of the stream theorem holds at every event |
| Dangling.DanglingIsReachable | src/broker/mqtt_fsm.h:265-309 | first send, release of the base reference, timeout with the write in flight, PUBACK: the message is freed and both queued segments name it |
| DanglingRuns.ReusableIsReachable | src/broker/mqtt_fsm.h:174-190 | a run of the broker: PUBLISH, a clock past the deadline, timeout sweep, PUBACK; the message is freed, both queued segments name it, and its buffer is the next to be handed out |
| DanglingRuns.FailedWriteDangles | src/broker/loop.h:522-549 | without any acknowledgement: the write of the first send fails with its retransmission queued behind it, the message is freed, and the flush in the same call submits the retransmission |
| DanglingRuns.FailedWriteRun | src/broker/loop.h:522-549 | the same as a run of the broker |
| DanglingRuns.OtherClientDangles | src/broker/mqtt_fsm.h:174-190 | a run of the broker in which the PUBACK of one client, whose queue is empty, frees the message that the queue of another still names |
| DanglingRuns.LonerFromInit | src/broker/state.h:107-286 | broker_init, an accept, the clock and a subscription lead to a state from which the first two runs start |
| DanglingRuns.PairFromInit | src/broker/state.h:107-286 | and with a second client to one from which the third starts |
| DanglingRuns.OverwrittenFromInit | src/mem/pool.h:72-92 | ten events from broker_init on: a segment is queued, and later, still queued, it would put other bytes on the wire |
| CeremonyEngine.Deliver | src/broker/mqtt_fsm.h:108-169 | fsm_sub_start_delivery in place |
| CeremonyEngine.OnPuback | src/broker/mqtt_fsm.h:174-190 | fsm_sub_puback_received in place |
| CeremonyEngine.QueuePubrel | src/broker/mqtt_fsm.h:194-213 | PUBREL joins the queue as a control segment of this generation unless the ring is full, which leaves the ring alone; OnTheWire.PubrelOnTheWire reads its bytes |
| CeremonyEngine.OnPubrec | src/broker/mqtt_fsm.h:219-249 | fsm_sub_pubrec_received in place; Acks.PubrecExact and OnTheWire.PubrelOnTheWire say what it does |
| CeremonyEngine.OnTimeout | src/broker/mqtt_fsm.h:265-309 | fsm_sub_timeout in place, all three outcomes |
| CeremonyEngine.SweepEntries | src/broker/mqtt_fsm.h:361-388 | fsm_sweep_client in place; Timeouts.TimeLeftIsSpared and Timeouts.OverdueReachedIff say which entries it touches |
| CeremonyEngine.DisconnectClient | src/broker/mqtt_fsm.h:320-353 | fsm_client_disconnect in place |
| BrokerInv.CountsFit | src/mem/msgbuf.h:156-161 | no reachable reference count comes near 2^32 |
| SlotSteps.AcceptKeeps | src/broker/state.h:429-455 | accepting keeps every invariant and succeeds exactly when a slot and a buffer are free and the descriptor is in range |
| CloseSteps.CloseKeepsIff | src/broker/loop.h:758-778 | a close keeps every invariant if and only if no receive is outstanding while an orphan is waiting |
| CloseSteps.RecvDoneKeepsIff | src/broker/loop.h:687-733 | a completed receive keeps every invariant if and only if it does not free an orphan that another receive targets |
| CloseSteps.SubmitRecvKeeps | src/broker/loop.h:77-114 | starting a receive keeps every invariant |
| Outcomes.ReceiveOutcome | src/broker/loop.h:687-733 | a receive of the present connection that completes on an active client leaves it CLOSING if and only if the result is at most 0 and ACTIVE otherwise, is no longer outstanding, and changes nothing else |
| Outcomes.StaleReceiveOutcome | src/broker/loop.h:699-722 | a receive of an earlier connection, or of one that is closing or gone, gives the orphan back to the pool, whatever its result, and changes nothing else but its own flag |
| Outcomes.ReceiveStarts | src/broker/loop.h:77-114 | a full buffer makes the client CLOSING; otherwise one receive into its own buffer under its own generation is outstanding |
| Outcomes.CloseStarts | src/broker/loop.h:243-250 | the active client of the descriptor is CLOSING, and without one nothing changes |
| Outcomes.AcceptOutcome | src/broker/state.h:429-455 | the head of the free list becomes an active client with the next generation, a clean session, the buffer from the stack and nothing queued or in flight; when slot, buffer or descriptor is missing nothing changes |
| Outcomes.CloseOutcome | src/broker/loop.h:758-778 | a clean session frees slot, entries and exactly this slot's subscriptions, any other keeps entries and subscriptions and sleeps; the buffer is free again, or the orphan while a receive is outstanding |
| Outcomes.SubscriptionOutcome | src/broker/trie.h:249-299 | a subscription under the present generation comes or goes for exactly this slot at exactly this node |
| Orphans.OrphanOverwriteIsReachable | src/broker/state.h:525-537 | five possible events lead from any state with a clean free slot and two free buffers to one where a close loses a buffer |
| Orphans.ForeignOrphanIsReachable | src/broker/loop.h:713-722 | one event more, the start of a close, and the receive in flight frees an orphan that an older receive targets: the invariants are gone when it completes |
| Reuse.DanglingIsOverwritten | src/mem/pool.h:72-92 | if a ready segment's buffer is the next one to be handed out, which DanglingRuns.ReusableIsReachable reaches, three possible events leave the queue as it was and change the bytes that the segment puts on the wire |
| Reuse.ReusableDangles | src/mem/pool.h:72-92 | such a segment dangles: a message in use has its buffer to itself |
| Reuse.OverwriteIff | src/mem/pool.h:72-92 | writes to a buffer leave the packet of a queued segment alone, whatever they write, if and only if it is not the buffer of the segment's message |
| FanoutSteps.FanOutKeeps | src/broker/handler.h:137-174 | over any list of matched nodes each active subscribed slot is delivered to exactly once and no other slot is |
| FanoutSteps.PublishKeeps | src/broker/handler.h:336-426 | one PUBLISH, from the ceremony to the release of the base reference, keeps every invariant and starts exactly those deliveries |
| FanoutSteps.LowQosFanOut | src/broker/handler.h:336-426 | QoS 0 and 1: delivery starts for exactly the active slots subscribed at a matched node, each once, if and only if both pools have something left |
| FanoutSteps.HighQosFanOut | src/broker/handler.h:336-426 | QoS 2: the same if and only if, besides, the publisher's table has room and no receipt of the id is in plain sight |
| FanoutQueues.DeliveryQueues | src/broker/mqtt_fsm.h:108-169 | a delivery puts the PUBLISH of the message last in a ring that is not full, with this QoS, the message's RETAIN flag, no DUP and nothing sent, and it is still last after the flush |
| FanoutQueues.PublishQueues | src/broker/handler.h:336-426 | after one PUBLISH each slot that a delivery started for has the taken message queued last under the publication's QoS and RETAIN flag, unless its ring was full; no other slot changed, and of the publisher only table and buffer besides |
| Runs.StepKeeps | src/broker/loop.h:780-820 | every event keeps every invariant |
| Runs.Run | src/broker/loop.h:780-820 | every state reachable by possible events satisfies every invariant |
| Runs.InitHolds | src/broker/state.h:107-286 | the state broker_init leaves satisfies every invariant |
| Runs.CountsAreOwners | src/broker/mqtt_fsm.h:108-352 | in every such state a message off the free stack counts exactly its owners and has at least one |
| Runs.AllBackAfterDisconnect | src/broker/mqtt_fsm.h:320-353 | once no client is connected the message pool is full again, and the buffer pool too when no receive is outstanding |
| Runs.BufferInOnePlace | src/mem/pool.h:72-92 | every receive buffer is in exactly one of the free stack, a live message or a client slot |
| Runs.RecvTargetIsPrivate | src/broker/handler.h:82-110 | a buffer the kernel may still write to is neither free nor shared by a live message |
| Runs.WindowIsPrivate | src/broker/loop.h:53-74 | a buffer that a client reads from, compacts or copies into is neither free nor shared by a live message |
| Runs.SlotsAddUp | src/broker/state.h:249-258 | the free list threaded through the fd field holds exactly the free slots, and free, active and dormant slots add up to all |
| Runs.FanOutIsExact | src/broker/handler.h:137-174 | in every reachable state one PUBLISH starts delivery for exactly the active subscribers of the matched nodes, each once |
| MessageBytes.ForwardedVerbatim | src/broker/handler.h:382-396 | a segment for the stolen message is the PUBLISH of the publisher's topic and payload, and its stored wire length is right |
| MessageBytes.OffsetsFit | src/broker/handler.h:386-390 | in a receive buffer of 64 KiB the 16-bit topic offset and the 32-bit payload fields never truncate |
| MessageBytes.LiveMessageStays | src/broker/handler.h:82-110 | no event, writes of the kernel and copies between receive buffers included, changes the record or the bytes of a live message |
| MessageBytes.LiveMessageStaysOverRuns | src/broker/handler.h:82-110 | over any run a referenced message keeps its topic and payload |
| Arrival.WindowFrames | src/broker/loop.h:640-672 | a complete PUBLISH at the start of the unread bytes is a packet of exactly the reported length |
| Arrival.OffsetsArrive | src/broker/handler.h:382-391 | the pointer differences, cast to 16 and 32 bits, are the places of topic and payload in the receive buffer |
| Arrival.ArrivedInBuffer | src/broker/handler.h:382-391 | whatever the parser accepts, the offsets lie in the receive buffer and the message is valid |
| Arrival.PacketForwarded | src/broker/handler.h:336-426 | from bytes to bytes: what any subscriber is sent for a packet in the receive buffer is the PUBLISH of that packet's topic, payload and retain flag |
| Arrival.StepPlaced | src/broker/handler.h:382-396 | no event makes a message in use reach outside its buffer |
| Arrival.RunPlaced | src/broker/handler.h:382-396 | nor does any run, as long as the offsets come from the parser |
| BrokerObject.BrokerInit | src/broker/state.h:107-286 | the broker built in memory has exactly the initial state, all parts apart from each other |
| BrokerObject.BrokerState.AllocSlot | src/broker/state.h:429-455 | broker_alloc_slot in place, invariants kept |
| BrokerObject.BrokerState.FreeSlot | src/broker/state.h:513-551 | broker_free_slot on a connected slot in place, trie_remove_fd included |
| BrokerObject.BrokerState.GoDormant | src/broker/state.h:554-580 | broker_slot_go_dormant in place |
| BrokerObject.BrokerState.HandleClose | src/broker/loop.h:758-778 | handle_close in place; all invariants hold afterwards if and only if no orphan was overwritten |
| BrokerObject.BrokerState.StartClose | src/broker/loop.h:243-250 | submit_close in place: only an active client changes, to CLOSING |
| BrokerObject.BrokerState.StartReceive | src/broker/loop.h:77-114 | submit_recv_internal in place: a full window closes, otherwise one receive into the client's own buffer is outstanding |
| BrokerObject.BrokerState.HandleRecv | src/broker/loop.h:687-734 | handle_recv up to the bytes in place, stale and closing completions included; all invariants hold afterwards if and only if no foreign orphan was freed; Outcomes.ReceiveOutcome and Outcomes.StaleReceiveOutcome say what becomes of the client |
| BrokerObject.BrokerState.SubscribeFilter | src/broker/subs.h:16-25 | a subscription is stored with the slot's current generation at the node of the filter's path, or nothing changes; an empty filter is refused, one that has its node is not, and any other only for want of nodes or children on its own path |
| BrokerObject.BrokerState.UnsubscribeFilter | src/broker/subs.h:28-30 | exactly this slot leaves exactly this node, or nothing changes |
| BrokerObject.BrokerState.Puback | src/broker/loop.h:614-618 | PUBACK of one client leaves all other clients alone and keeps every invariant |
| BrokerObject.BrokerState.Pubrec | src/broker/loop.h:619-623 | PUBREC likewise |
| BrokerObject.BrokerState.Pubrel | src/broker/loop.h:624-628 | PUBREL likewise |
| BrokerObject.BrokerState.WritevCqe | src/broker/loop.h:483-549 | a write completion likewise, and code and entries are those of the value-level completion |
| BrokerObject.BrokerState.SweepAll | src/broker/mqtt_fsm.h:392-404 | the sweep over all slots in place, invariants kept |
| BrokerObject.BrokerState.FanOutMatches | src/broker/handler.h:137-174 | process_publish_matches in place: the loops over nodes and slots start the deliveries of the value-level fan-out |
| BrokerObject.BrokerState.Publish | src/broker/handler.h:336-426 | the MQTT_PUBLISH case in place, from the match in the trie to the release of the base reference: invariants kept, and on a wildcard-free topic with at most 64 matching nodes the deliveries started are those to the active clients with a matching filter |
| BrokerObject.BrokerState.PublishPacket | src/broker/handler.h:336-426 | the MQTT_PUBLISH case from the bytes of the receive buffer on: refused packets change nothing, any other is parsed in place and published with its own offsets and topic, with the deliveries of Publish |
| Framing.ParseMonotonic | src/broker/loop.h:597-685 | a longer stream parses to the same packets first |
| Framing.ParseSplit | src/broker/loop.h:597-685 | packets split off so far, followed by the parse of the rest, are the parse of the whole |
| Framing.FastPathFrames | src/broker/loop.h:606-634 | the four-byte short cut is taken exactly for complete packets of the types 4 to 7 with a two-byte header and two bytes behind it, and frames as the full parser does |
| Framing.FullWindowIsOversized | src/broker/loop.h:95-105 | a full window without a complete packet is the start of a packet longer than the buffer |
| RecvWindow.Window.MaybeCompact | src/broker/loop.h:53-74 | compaction happens exactly behind half the buffer or with less than a quarter of it left, moves the unread bytes without changing them and leaves room unless they fill the buffer |
| RecvWindow.Window.PrepareRecv | src/broker/loop.h:77-105 | there is no room exactly when one incomplete packet longer than the buffer fills it |
| RecvWindow.Window.Steal | src/broker/handler.h:82-110 | the stolen buffer keeps its bytes, the unread rest continues in a fresh buffer, nothing is lost or repeated |
| RecvWindow.Window.Process | src/broker/loop.h:597-685 | the packet loop, short cut, stealing and advance included, only ever moves whole packets from the unread bytes to the consumed ones, and ends the connection exactly at a malformed packet or one that the handler rejects |
| RecvWindow.Feed | src/broker/loop.h:597-745 | however the stream is cut into receives, the packets dispatched are a prefix of the whole-stream parse, and all of it while the connection lives; it ends only for a full buffer without a complete packet, a malformed packet, or one that the handler rejects |
| Topics.ExtractSegment | src/mqtt/packet.h:127-138 | the level at a position and the position behind its delimiter |
| Topics.ParentLevelOnly | src/broker/trie.h:394-430 | the two readings of '#', with and without the parent level, differ in nothing else |
| Topics.TopicMatches | src/broker/subs.h:43-86 | the two-index loop equals its recursive specification |
| Topics.CharMatchIsLevelMatch | src/broker/subs.h:43-86 | for every valid filter and every topic, topic_matches is level-by-level matching with '#' taking one or more levels, unless the topic's last level is empty and the filter ends in '+' |
| Topics.MatchersDifferIff | src/broker/subs.h:43-86 | the two differ on a filter and a topic if and only if the topic's last level is empty, the filter ends in '+' and the levels match |
| Topics.TrailingDelimiterDiffers | src/broker/subs.h:43-86 | such a pair: a/+ and a/ |
| Topics.LevelsAreSplit | src/mqtt/packet.h:105-124 | the iterator yields the plain split without its last level when that level is empty; it is the plain split if and only if nothing follows the last delimiter |
| TrieMatch.HitsSound | src/broker/trie.h:394-430 | every collected node is subscribed and its filter path matches the topic |
| TrieMatch.HitsComplete | src/broker/trie.h:394-430 | every subscribed node whose path matches is collected |
| TrieMatch.HitsDistinct | src/broker/trie.h:394-430 | no node is collected twice |
| TrieMatch.CollectIsMatch | src/broker/trie.h:388-430 | with the cap of 64: the result is distinct and sound, has 64 nodes if more are found, and is complete when at most 64 nodes match |
| TrieSteps.GrownKeeps | src/broker/trie.h:222-243 | creating a node keeps child tables, wildcard pointers, free list and paths sound and adds exactly one path |
| TrieSteps.FailedKeeps | src/broker/trie.h:240-243 | a child that could not be added is back on the free list and the trie is sound for the same paths |
| TopicTrie.EmptyCell | src/broker/trie.h:159-170 | with at most 32 children in 64 cells there is an empty cell, so inserting a child cannot fail |
| TopicTrie.TopicTrie.constructor | src/broker/trie.h:83-93 | the root alone is allocated, everything else is on the free list, nothing is subscribed |
| TopicTrie.TopicTrie.FindChild | src/broker/trie.h:125-146 | probing finds the one child of this name, or 0 exactly when there is none |
| TopicTrie.TopicTrie.AddChild | src/broker/trie.h:173-200 | succeeds exactly with fewer than 32 children and an empty cell; on failure count, table and wildcard pointers are as before |
| TopicTrie.TopicTrie.Subscribe | src/broker/trie.h:206-264 | success changes the entry of this filter path and slot only; failure changes no subscription and means that the slot is out of range, or that a node on the filter's own path is full or no node is free; a filter that has its node never fails |
| TopicTrie.TopicTrie.Unsubscribe | src/broker/trie.h:270-299 | succeeds exactly when the filter has a node, and removes exactly this slot from exactly this path |
| TopicTrie.TopicTrie.RemoveFd | src/broker/trie.h:305-321 | the slot leaves every path and nothing else changes |
| TopicTrie.TopicTrie.MatchCollect | src/broker/trie.h:388-430 | the recursion over the topic bytes collects the first 64 of the specified nodes, in order |
| Delivery.CutAllIsIdentity | src/broker/trie.h:216-217 | a filter is stored as it reads if and only if no level exceeds 64 bytes |
| Delivery.SharedNodeIff | src/broker/trie.h:216-217 | two filters are stored under one path if and only if they have equally many levels that agree in their first 64 bytes |
| Delivery.LongLevelsCollide | src/broker/trie.h:216-217 | different filters are: a level of 65 bytes in any position, whatever its last byte is |
| Delivery.MatcherIsStricter | src/broker/subs.h:43-86 | for every valid filter and every topic topic_matches holds exactly when the levels as sent match and the stricter condition on '#' and on trailing delimiters holds |
| Delivery.TrieAgreesWithMatcher | src/broker/trie.h:394-430 | for every valid filter with levels of at most 64 bytes and every topic, trailing delimiters included, topic_matches holds exactly when the trie matches and the stricter condition on '#' and on trailing delimiters holds |
| Delivery.CutDeliversIff | src/broker/trie.h:216-217 | for every filter and topic: the trie delivers what the filter as sent does not match if and only if a level is over 64 bytes and the cut filter matches, and misses what it does match if and only if a level is over 64 bytes and the filter as sent matches |
| Delivery.WantedIsAskedIff | src/broker/trie.h:216-217 | the same for all filters that a client sent |
| Delivery.CollectedIsWanted | src/broker/trie.h:388-430 | the collected nodes carry a slot exactly when it subscribed to a matching filter, up to 64 matching nodes |
| Delivery.DeliveredExactly | src/broker/handler.h:336-426 | end to end, in every reachable state: one PUBLISH on a wildcard-free topic starts one delivery to each active client with a matching subscription and none to anybody else |
| Delivery.LowQosDelivered | src/broker/handler.h:336-426 | at QoS 0 and 1 exactly this happens if and only if both pools have something left, and nobody is delivered to otherwise |
| HashMap.RoundUp | src/mem/hashmap.h:43-48 | the least power of two from 16 on that is not below the request |
| HashMap.HashMap.Insert | src/mem/hashmap.h:81-99 | refuses exactly at three quarters of the capacity, otherwise adds one (hash, value) pair; the unbounded probe ends even with no EMPTY cell left |
| HashMap.HashMap.Find | src/mem/hashmap.h:103-119 | a value stored under the hash, or EMPTY exactly when there is none |
| HashMap.HashMap.Remove | src/mem/hashmap.h:123-141 | removes one occurrence of the pair exactly when there is one |
| HashMap.HashMap.Update | src/mem/hashmap.h:145-163 | changes the value of one occurrence exactly when there is one |
| HashMap.PutKeeps | src/mem/hashmap.h:81-99 | reusing a tombstone or marking one keeps every stored pair reachable from its home cell |

## Left out

- Connection.Run: completions that are fatal or stop inside a control packet end the account; Stream.OfferExactIff shows what the code sends after such a stop.
- BrokerStream.ConnectionStream: asks that no dangling segment of the connection names a message slot or reads from a buffer that is used again (DanglingSteps.NeverDanglesIff says when none dangles), that parsed offsets lie in the buffer (Arrival.ArrivedInBuffer), and what Connection.Run asks of completions. Responses outside the egress queue are not part of the stream.
- Qos2.ExactlyOnce: a PUBLISH that finds the table full is not answered; the receiver it is compared with does not see such a PUBLISH either.
- Timeouts.OverdueReachedIff: asks that no message waits for its first send, or a write is in flight, and that the ring has room for every entry; Timeouts.FirstOverdue and Timeouts.TimeLeftIsSpared do not.
- FanoutQueues.PublishQueues: topic and payload together stay below 2^28 bytes, as in every packet; Arrival.ArrivedInBuffer.
- DanglingSteps.AckForsakesIff: this one, WriteForsakesIff and PublishForsakesNothing ask that the flush that follows finds a sendable head; SiteForsakesIff does not.
- Delivery.DeliveredExactly: at most 64 matching nodes, because the collector stops there; without the bound every delivery is still wanted.
- Runs.StepKeeps: CLOSE completions that overwrite an orphan and receive completions that free a foreign one are excluded; CloseSteps.CloseKeepsIff and CloseSteps.RecvDoneKeepsIff show that this is exact.
- BrokerObject.BrokerState.FreeSlot: the branch for a dormant slot, which nothing on the live path takes, and the removal from the identity map are not modelled.
- BrokerObject.BrokerState.Publish: offsets and topic are arguments; BrokerObject.BrokerState.PublishPacket computes them from the bytes. The unread rest that moves to the fresh buffer is RecvWindow.Window.Steal in place and the event MoveBytes of Runs; recv_start and recv_len are not fields of ClientObjects.ClientSlot.
- BrokerObject.BrokerState.PublishPacket: the check that CONNECT came first is not modelled.
- BrokerObject.BrokerState.HandleRecv: stops before the bytes are counted and processed; that is RecvWindow.Receive.
- BrokerObject.BrokerInit: allocation failures and the identity map are not modelled.
- ClientObjects.ClientSlot.Init: identity, keepalive, pending and response fields are not modelled.
- Conservation.PubackKeeps, PubrecKeeps, TimeoutKeeps, StartDeliveryKeeps: conservation alone; the effect of each step is in module Acks.
- HashMap.HashMap.Insert: the masked index is written as a remainder, which is the same for the power-of-two capacity that HashMap.RoundUp chooses. A request above 2^31 entries makes the rounding loop endless and is excluded.
- TopicTrie.TopicTrie.Subscribe: fd_bitmap and fd_gen are one map from slot to generation; the 64-bit words and bit scans are not modelled. The slot order of the scan is kept.
- CeremonyEngine.QueuePubrel: fields of a control segment that the code leaves stale (dup, retain, the last four ctrl bytes) are written as zero; nothing reads them.
- Generations: after 256 reuses of a slot a stale completion would be taken for a current one; SlotSteps.AcceptPossible assumes it has arrived by then.
- Descriptors: SlotSteps.AcceptPossible assumes that the kernel does not hand out a descriptor that is still mapped.
- Dormant sessions can be entered but not resumed: broker_slot_resume, broker_find_slot, client identities and the use of the hash map for them are not modelled.
- CONNECT, SUBSCRIBE and UNSUBSCRIBE field parsing, the four-byte acknowledgement encoders, will messages, retained messages, keepalive, the pending queue and per-subscription QoS are not modelled.
- Acknowledgements sent through response slots appear only as replies; they share the socket with the egress queue and are not ordered against it.
- The receive-retry and flush queues are replaced by events that may happen at any time (StartRecv, RetryFlush), so nothing is said about when a stalled client is tried again; Progress.FlushSubmitsIff says when a try submits.
- High-water marks, counters, statistics and logging are not modelled.
- System calls, ring mapping and memory barriers are not modelled; a submission entry is available or not.
- Nothing was executed.
