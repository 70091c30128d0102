/** The two ways in which egress_flush (src/broker/loop.h) offers the kernel something other than what is owed, with
    queues that show them, and what the count wrap leads to. */
module EgressFaults {
  import opened Common
  import opened Inflight
  import opened Shared
  import opened Egress
  import opened Flush
  import opened Ceremony
  import opened Stream
  import opened Qos2
  import opened FatalWrite

  function Repeat(s: Seg, n: nat): (q: seq<Seg>)
    ensures |q| == n && forall k :: 0 <= k < n ==> q[k] == s
  {
    if n == 0 then [] else Repeat(s, n - 1) + [s]
  }

  /** Whenever a PUBLISH is ready to be sent, 64 of them in a row are offered as nothing at all. */
  lemma FullBatchOffersNothing(p: Pools, s: Seg)
    requires Ready(p, s) && s.kind == SEG_PUBLISH && s.cursor == 0
    ensures var q := Repeat(s, EGRESS_BATCH_MAX);
            QueueReady(p, q) && CountWraps(q) && Flatten(Offer(p, q)) == [] != Owed(p, q)
  {
    hide Ready, Offer;
    var q := Repeat(s, EGRESS_BATCH_MAX);
    OfferExactIff(p, q);
    WrappedOfferIsEmpty(p, q);
  }

  /** Such a segment exists: one message of a topic of one byte and no payload. */
  lemma SomePublishIsReady() returns (p: Pools, s: Seg)
    ensures Ready(p, s) && s.kind == SEG_PUBLISH && s.cursor == 0
  {
    var m := Msg(0, 0, 1, 0, 0, 0, false, 1);
    p := Pools([m], [], [[0x61]], [], 1, 0);
    s := Seg(0, 0, SEG_PUBLISH, 0, false, false, 0, 0, StoreWireLen(5) + [0, 0, 0, 0], 0);
    WireLenRoundTrip(s, 5, [0, 0, 0, 0]);
  }

  /** A PUBREL of which a write took the first bytes is offered short by as many bytes again. */
  lemma ResumedPubrelOffersLess(p: Pools, generation: byte, id: u16, cursor: u32)
    requires 0 < cursor < 4
    ensures var q := [PubrelSeg(generation, id).(cursor := cursor)];
            && QueueReady(p, q) && CtrlResumed(q) && Flatten(Offer(p, q)) != Owed(p, q)
            && |Owed(p, q)| == 4 - cursor
            && |Flatten(Offer(p, q))| == if cursor == 1 then 2 else 0
  {
    var s := PubrelSeg(generation, id).(cursor := cursor);
    var q := [s];
    assert Ready(p, s);
    OfferExactIff(p, q);
    OfferUnwrapped(p, q);
    ReadyIov(p, s);
    hide Ready, Offer, SegIov, Wire;
    assert q[1..] == [] && Owed(p, q[1..]) == [];
    assert Owed(p, q) == Drop(Wire(p, s), cursor) + [];
    assert |Drop(Drop(Wire(p, s), cursor), cursor)| == if cursor == 1 then 2 else 0;
  }

  /** The count wrap is not harmless: the empty write completes with zero bytes, which counts as fatal. The whole batch
      is thrown away unsent, and every packet id and inflight entry it had taken is given up. */
  lemma WrappedBatchIsThrownAway(s: Site, k: nat)
    requires Consistent(s.c.slots) && s.c.batch == EGRESS_BATCH_MAX <= |s.c.queue| && CountWraps(s.c.queue[..EGRESS_BATCH_MAX])
    requires QueueReady(s.p, s.c.queue[..EGRESS_BATCH_MAX]) && k < EGRESS_BATCH_MAX && SentFirst(s.c.queue[k])
    ensures Flatten(Offer(s.p, s.c.queue[..EGRESS_BATCH_MAX])) == []
    ensures Settle(s, 0).c.queue == s.c.queue[EGRESS_BATCH_MAX..]
    ensures FindDirect(Settle(s, 0).c.slots.hot, s.c.queue[k].packetId) == -1
  {
    hide Undo, FindDirect, QueueReady, Offer, EntryOk;
    WrappedOfferIsEmpty(s.p, s.c.queue[..EGRESS_BATCH_MAX]);
    var s1 := s.(c := s.c.(writing := false));
    FailUndoes(s1, EGRESS_BATCH_MAX);
    SentIdsAre(s.c.queue, EGRESS_BATCH_MAX, s.c.queue[k].packetId);
    UndoneIsGone(s.c.slots, SentIds(s.c.queue, EGRESS_BATCH_MAX), s.c.queue[k].packetId);
  }

  /** After the undo no entry with an undone id is left in its direct slot. */
  lemma {:induction false} UndoneIsGone(v: Slots, ids: seq<u16>, id: u16)
    requires Consistent(v) && id in ids
    ensures FindDirect(Undo(v, ids).hot, id) == -1
    decreases |ids|
  {
    var w := UndoOne(v, ids[0]);
    UndoOneExact(v, ids[0], 1);
    if id in ids[1..] {
      UndoneIsGone(w, ids[1..], id);
    } else {
      assert id == ids[0];
      UndoneHere(v, id);
      StaysGone(w, ids[1..], id);
    }
  }

  lemma UndoneHere(v: Slots, id: u16)
    requires Consistent(v)
    ensures FindDirect(UndoOne(v, id).hot, id) == -1
  {
    var s := FindDirect(v.hot, id);
    if s >= 0 {
      FreeSlotKeeps(v, s);
    }
  }

  lemma {:induction false} StaysGone(v: Slots, ids: seq<u16>, id: u16)
    requires Consistent(v) && FindDirect(v.hot, id) == -1
    ensures FindDirect(Undo(v, ids).hot, id) == -1
    decreases |ids|
  {
    if ids != [] {
      var s := FindDirect(v.hot, ids[0]);
      UndoOneExact(v, ids[0], 1);
      if s >= 0 {
        FreeSlotKeeps(v, s);
      }
      StaysGone(UndoOne(v, ids[0]), ids[1..], id);
    }
  }
}
