/** What the fatal-error walk of handle_egress_cqe (src/broker/loop.h) does to the inflight table, and to the receipts of
    the publisher side that share it. */
module FatalWrite {
  import opened Common
  import opened Inflight
  import opened Shared
  import opened Egress
  import opened Flush
  import opened Ceremony
  import opened Qos2

  /** A first send that already has its packet id. */
  predicate SentFirst(s: Seg) {
    s.kind == SEG_PUBLISH && s.qos > 0 && s.packetId > 0 && !s.dup
  }

  /** The ids of the first sends among the first segments of a queue. */
  function SentIds(q: seq<Seg>, batch: nat): seq<u16>
    decreases batch
  {
    if batch == 0 || q == [] then []
    else (if SentFirst(q[0]) then [q[0].packetId] else []) + SentIds(q[1..], batch - 1)
  }

  lemma {:induction false} SentIdsAre(q: seq<Seg>, batch: nat, id: u16)
    ensures id in SentIds(q, batch) <==> exists k :: 0 <= k < batch && k < |q| && SentFirst(q[k]) && q[k].packetId == id
    decreases batch
  {
    if batch != 0 && q != [] {
      SentIdsAre(q[1..], batch - 1, id);
      if k :| 0 <= k < batch && k < |q| && SentFirst(q[k]) && q[k].packetId == id {
        assert k > 0 ==> q[1..][k - 1] == q[k];
      }
      if id in SentIds(q[1..], batch - 1) {
        var k :| 0 <= k < batch - 1 && k < |q| - 1 && SentFirst(q[1..][k]) && q[1..][k].packetId == id;
        assert q[k + 1] == q[1..][k];
      }
    }
  }

  /** The walk takes the whole batch off the queue and undoes exactly its first sends. */
  lemma {:induction false} FailUndoes(s: Site, batch: nat)
    requires Shaped(s.c.slots)
    ensures Fail(s, batch).c.slots == Undo(s.c.slots, SentIds(s.c.queue, batch))
    ensures Fail(s, batch).c.queue == if batch <= |s.c.queue| then s.c.queue[batch..] else []
    decreases batch
  {
    hide Release, Search;
    if batch == 0 || s.c.queue == [] {
      assert s.c.queue[0..] == s.c.queue;
    } else {
      var q := s.c.queue;
      var r := FailHead(s);
      FailUndoes(r, batch - 1);
      assert batch <= |q| ==> q[1..][batch - 1..] == q[batch..];
      var rest := SentIds(q[1..], batch - 1);
      if SentFirst(q[0]) {
        assert ([q[0].packetId] + rest)[1..] == rest;
        assert r.c.slots == UndoOne(s.c.slots, q[0].packetId);
      } else {
        assert [] + rest == rest;
      }
    }
  }

  /** A failed write erases the receipt of an id if and only if its batch holds a PUBLISH of QoS 1 or 2 without DUP that
      carries the id, and the receipt sits in the slot that direct indexing reads. */
  lemma ReceiptLostIff(s: Site, batch: nat, id: u16)
    requires Consistent(s.c.slots) && InReceipt(s.c.slots, id) && id != 0
    ensures !InReceipt(Fail(s, batch).c.slots, id) <==>
              && SitsDirect(s.c.slots, id)
              && exists k :: 0 <= k < batch && k < |s.c.queue| && SentFirst(s.c.queue[k]) && s.c.queue[k].packetId == id
  {
    hide InReceipt, SitsDirect, Undo;
    FailUndoes(s, batch);
    SentIdsAre(s.c.queue, batch, id);
    UndoLosesIff(s.c.slots, SentIds(s.c.queue, batch), id);
  }

  /** The site after a QoS 2 PUBLISH of its client. */
  function Noted(s: Site, id: u16): Site
    requires Shaped(s.c.slots)
  {
    s.(c := s.c.(slots := PubReceived(s.c.slots, 2, id, s.p.now).slots))
  }

  /** The one inflight slot holds a message in flight with id 1, and its write has not completed. */
  ghost predicate OneInFlight(s: Site) {
    && Consistent(s.c.slots) && |s.c.slots.hot| == 1 && s.c.slots.count == 1
    && s.c.slots.hot[0].state == WaitPuback && s.c.slots.hot[0].packetId == 1
    && s.c.writing && s.c.batch == 1 && |s.c.queue| == 1 && SentFirst(s.c.queue[0]) && s.c.queue[0].packetId == 1
  }

  /** The run at the level of the handlers: PUBACK 1 arrives before the write completes, the client publishes with its own
      id 1, the write fails, and the repeated PUBLISH goes through a second time. Its id is never hidden. */
  lemma FailedWriteForgetsReceipt(s: Site, res: int)
    requires OneInFlight(s) && res <= 0 && res != -EAGAIN && res != -EINTR
    ensures var s1 := PubackReceived(s, 1);
            && PubReceived(s1.c.slots, 2, 1, s1.p.now).forward && !Shadowed(s1.c.slots, 1)
            && var s2 := EgressCqe(Noted(s1, 1), s.c.generation, s.c.fd, res).site;
            && PubReceived(s2.c.slots, 2, 1, s2.p.now).forward && !Shadowed(s2.c.slots, 1)
  {
    hide Release, EgressFlush;
    var v1 := FreeSlot(s.c.slots, 0);
    FreeSlotKeeps(s.c.slots, 0);
    AcknowledgedFirst(s);
    FreeTable(v1);
    PublishExact(v1, 1, s.p.now);
    var s1 := PubackReceived(s, 1);
    PublishExact(v1, 1, s1.p.now);
    OnlyReceiptAt(v1, s1.p.now);
    FailsAll(Noted(s1, 1), res);
    var s2 := EgressCqe(Noted(s1, 1), s.c.generation, s.c.fd, res).site;
    UndoneTable(Noted(s1, 1).c.slots);
    UndoLosesIff(Noted(s1, 1).c.slots, [1], 1);
    FreeTable(s2.c.slots);
    PublishExact(s2.c.slots, 1, s2.p.now);
  }

  lemma AcknowledgedFirst(s: Site)
    requires OneInFlight(s)
    ensures var r := PubackReceived(s, 1);
            r.c == s.c.(slots := FreeSlot(s.c.slots, 0)) && r.c.slots.hot[0].state == Free && r.c.slots.count == 0
  {
    hide Release, EgressFlush, Consistent;
    assert FindDirect(s.c.slots.hot, 1) == 0;
  }

  lemma OnlyReceiptAt(v: Slots, now: int)
    requires Consistent(v) && |v.hot| == 1 && v.hot[0].state == Free && v.count == 0
    ensures var w := PubReceived(v, 2, 1, now).slots; |w.hot| == 1 && w.hot[0] == Hot(1, WaitPubrel, INCOMING, INVALID)
  {
  }

  lemma FailsAll(s: Site, res: int)
    requires Shaped(s.c.slots) && s.c.writing && s.c.batch == 1 && |s.c.queue| == 1
    requires SentFirst(s.c.queue[0]) && s.c.queue[0].packetId == 1 && res <= 0 && res != -EAGAIN && res != -EINTR
    ensures EgressCqe(s, s.c.generation, s.c.fd, res).site.c.slots == Undo(s.c.slots, [1])
  {
    hide Release, EgressFlush, FailHead, Undo;
    var s1 := s.(c := s.c.(writing := false));
    FailUndoes(s1, 1);
    assert SentIds(s.c.queue[1..], 0) == [];
    var ids: seq<u16> := [1];
    assert SentIds(s.c.queue, 1) == ids;
    assert s.c.queue[1..] == [];
    assert Settle(s, res) == Fail(s1, 1);
  }
}
