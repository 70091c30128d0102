/** The ceremonies of one client (src/broker/mqtt_fsm.h) seen by its connection: none of them accepts a byte, completes
    a packet or loses one from the queue. */
module ClientStream {
  import opened Common
  import opened Inflight
  import opened Packet
  import Publish
  import opened Shared
  import opened Egress
  import opened Flush
  import opened Ceremony
  import Qos2
  import opened Stream
  import opened Connection

  /** No byte was accepted, no packet was completed, and packets were only added to the log. */
  ghost predicate Leads(x: Conn, y: Conn) {
    && StreamInv(y) && y.accepted == x.accepted && y.packets == x.packets && x.log <= y.log
    && (Connected(x.s.c) ==> Connected(y.s.c))
  }

  lemma LeadsTrans(x: Conn, y: Conn, z: Conn)
    requires Leads(x, y) && Leads(y, z)
    ensures Leads(x, z)
  {
    hide StreamInv;
  }

  /** Outgoing entries only go. */
  ghost predicate FewerEntries(v: Slots, w: Slots) {
    |w.hot| == |v.hot| && forall s :: 0 <= s < |w.hot| && Outgoing(w.hot[s]) ==> w.hot[s] == v.hot[s]
  }

  lemma FewerKept(p: Pools, v: Slots, w: Slots)
    requires EntriesDeliverable(p, v) && FewerEntries(v, w)
    ensures EntriesDeliverable(p, w)
  {
    hide Deliverable;
  }

  /** A change of the pools that only releases, and a change of the client that its connection does not notice. */
  lemma Quiet(x: Conn, p: Pools, c: Client)
    requires StreamInv(x) && SameStore(x.s.p, p) && Unnoticed(x.s.c, c) && FewerEntries(x.s.c.slots, c.slots)
    requires Connected(x.s.c) ==> Connected(c)
    ensures Leads(x, x.(s := Site(p, c)))
  {
    hide SameStore, QueueReady, EntriesDeliverable, Shaped, HeadSent, Logged, InFlight, CtrlResumed;
    EntriesKept(x.s.p, p, x.s.c.slots);
    FewerKept(p, x.s.c.slots, c.slots);
    MoveKeeps(x, Elsewhere(p, c));
  }

  lemma FlushMove(x: Conn) returns (y: Conn)
    requires StreamInv(x)
    ensures Leads(x, y) && y.s == EgressFlush(x.s).site
  {
    hide QueueReady, EntriesDeliverable, HeadSent, Logged, InFlight, CtrlResumed, PreClean, Gather, Offer, Shaped;
    MoveKeeps(x, FlushNow);
    y := After(x, FlushNow);
    if !(x.s.c.writing || x.s.c.queue == [] || x.s.c.state != Active) {
      HeadIsSendable(x.s);
      GatherReady(x.s.p, x.s.c, 0);
    }
  }

  lemma KickMove(x: Conn) returns (y: Conn)
    requires StreamInv(x)
    ensures Leads(x, y) && y.s == Kick(x.s)
  {
    hide StreamInv, EgressFlush;
    y := x;
    if x.s.c.queue != [] && !x.s.c.writing {
      y := FlushMove(x);
    }
  }

  lemma EnqueueMove(x: Conn, seg: Seg) returns (y: Conn)
    requires StreamInv(x) && Ready(x.s.p, seg) && seg.cursor == 0 && seg.slotGen == x.s.c.generation
    ensures Leads(x, y) && y.s == x.s.(c := Push(x.s.c, seg))
  {
    hide QueueReady, EntriesDeliverable, Shaped, HeadSent, Logged, InFlight, CtrlResumed, Ready, FrameOf;
    MoveKeeps(x, Enqueue(seg));
    y := After(x, Enqueue(seg));
  }

  // ---- acknowledgements ----

  lemma FinishMove(x: Conn, slot: nat) returns (y: Conn)
    requires StreamInv(x) && slot < |x.s.c.slots.hot|
    ensures Leads(x, y) && y.s == Finish(x.s, slot)
  {
    hide Release, SameStore, QueueReady, EntriesDeliverable, HeadSent, Logged, InFlight, CtrlResumed;
    var r := Finish(x.s, slot);
    ReleaseStore(x.s.p, x.s.c.slots.hot[slot].msgIdx);
    Quiet(x, r.p, r.c);
    y := x.(s := r);
  }

  lemma PubackMove(x: Conn, id: u16) returns (y: Conn)
    requires StreamInv(x)
    ensures Leads(x, y) && y.s == PubackReceived(x.s, id)
  {
    hide QueueReady, EntriesDeliverable, HeadSent, Logged, InFlight, CtrlResumed, Finish, Kick, Awaiting;
    y := x;
    var slot := Awaiting(x.s.c, id, WaitPuback);
    if slot >= 0 {
      var y1 := FinishMove(x, slot);
      y := KickMove(y1);
      LeadsTrans(x, y1, y);
    }
  }

  lemma PubrelMove(x: Conn, id: u16) returns (y: Conn)
    requires StreamInv(x)
    ensures Leads(x, y) && y.s == x.s.(c := EnqueuePubrel(x.s.c, id))
  {
    hide StreamInv;
    y := x;
    if !Full(x.s.c) {
      y := EnqueueMove(x, PubrelSeg(x.s.c.generation, id));
    }
  }

  lemma PubrecMove(x: Conn, id: u16) returns (y: Conn)
    requires StreamInv(x)
    ensures Leads(x, y) && y.s == PubrecReceived(x.s, id)
  {
    hide QueueReady, EntriesDeliverable, HeadSent, Logged, InFlight, CtrlResumed, Finish, Kick, EgressFlush, EnqueuePubrel, Awaiting;
    var slot := Awaiting(x.s.c, id, WaitPubrec);
    if slot < 0 {
      var y1 := PubrelMove(x, id);
      y := y1;
      if !y1.s.c.writing {
        y := FlushMove(y1);
      }
      LeadsTrans(x, y1, y);
    } else {
      var y1 := FinishMove(x, slot);
      var y2 := PubrelMove(y1, id);
      y := KickMove(y2);
      LeadsTrans(x, y1, y2);
      LeadsTrans(x, y2, y);
    }
  }

  // ---- PUBLISH segments ----

  lemma {:induction false} VbiMono(a: nat, b: nat)
    requires a <= b
    ensures |Vbi(a)| <= |Vbi(b)|
    decreases b
  {
    if b >= 0x80 && a >= 0x80 {
      VbiMono(a / 0x80, b / 0x80);
    }
  }

  lemma LengthFits(m: Msg, qos: byte)
    requires WireLen(m, 1) < 0x1_0000_0000
    ensures 0 < WireLen(m, qos) < 0x1_0000_0000
  {
    hide Vbi;
    VbiMono(Publish.Remaining(m.topicLen, m.payloadLen, qos), Publish.Remaining(m.topicLen, m.payloadLen, 1));
  }

  /** A segment made for a message that can be sent is ready to be sent. */
  lemma PublishReady(s: Site, m: u32, id: u16, qos: byte, dup: bool)
    requires Deliverable(s.p, m)
    ensures Ready(s.p, PublishSeg(s, m, id, qos, dup))
  {
    hide WireLen, StoreWireLen, LoadWireLen;
    LengthFits(s.p.msgs[m], qos);
    WireLenRoundTrip(PublishSeg(s, m, id, qos, dup), WireLen(s.p.msgs[m], qos), [0, 0, 0, 0]);
  }

  lemma DeliverableKept(p: Pools, q: Pools, m: u32)
    requires SameStore(p, q) && Deliverable(p, m)
    ensures Deliverable(q, m)
  {
    hide WireLen;
    assert q.msgs[m].(refCount := 0) == p.msgs[m].(refCount := 0);
    SameMsgLength(p.msgs[m], q.msgs[m]);
  }

  lemma RefStore(p: Pools, m: u32)
    ensures SameStore(p, Ref(p, m))
  {
  }

  /** One delivery: a packet in the queue, or nothing when the ring is full. */
  lemma DeliveryMove(x: Conn, m: u32, qos: byte) returns (y: Conn)
    requires StreamInv(x) && Deliverable(x.s.p, m)
    ensures Leads(x, y) && y.s == StartDelivery(x.s, m, qos).site
  {
    hide QueueReady, EntriesDeliverable, HeadSent, Logged, InFlight, CtrlResumed, Ref, Release, SameStore, EgressFlush, PublishSeg, Ready, Deliverable;
    var p := Ref(x.s.p, m);
    RefStore(x.s.p, m);
    Quiet(x, p, x.s.c);
    var y1 := x.(s := Site(p, x.s.c));
    if Full(x.s.c) {
      ReleaseStore(p, m);
      Quiet(y1, Release(p, m), x.s.c);
      y := y1.(s := Site(Release(p, m), x.s.c));
      LeadsTrans(x, y1, y);
    } else {
      DeliverableKept(x.s.p, p, m);
      PublishReady(y1.s, m, 0, qos, false);
      SegOf(y1.s, m, 0, qos, false);
      var y2 := EnqueueMove(y1, PublishSeg(y1.s, m, 0, qos, false));
      y := FlushMove(y2);
      LeadsTrans(x, y1, y2);
      LeadsTrans(x, y2, y);
    }
  }

  lemma SegOf(s: Site, m: u32, id: u16, qos: byte, dup: bool)
    ensures PublishSeg(s, m, id, qos, dup).cursor == 0 && PublishSeg(s, m, id, qos, dup).slotGen == s.c.generation
  {
  }

  // ---- timeouts ----

  lemma TimeoutMove(x: Conn, slot: nat) returns (y: Conn)
    requires StreamInv(x) && slot < |x.s.c.slots.hot| && Outgoing(x.s.c.slots.hot[slot])
    ensures Leads(x, y) && y.s == Timeout(x.s, slot)
  {
    hide QueueReady, EntriesDeliverable, HeadSent, Logged, InFlight, CtrlResumed, Finish, SameStore, EgressFlush, PublishSeg, Ready, Deliverable;
    var cold := x.s.c.slots.cold[slot];
    if cold.dupCount >= MAX_RETRIES {
      y := FinishMove(x, slot);
    } else {
      var cold' := cold.(dupCount := cold.dupCount + 1, deadline := x.s.p.now + Qos2.INFLIGHT_TIMEOUT_MS);
      var c1 := x.s.c.(slots := x.s.c.slots.(cold := x.s.c.slots.cold[slot := cold']));
      SameStoreSelf(x.s.p);
      Quiet(x, x.s.p, c1);
      var y1 := x.(s := x.s.(c := c1));
      if Full(x.s.c) {
        y := FinishMove(y1, slot);
        LeadsTrans(x, y1, y);
      } else {
        var hot := x.s.c.slots.hot[slot];
        EntryCan(y1, slot);
        PublishReady(y1.s, hot.msgIdx, hot.packetId, cold.qos, true);
        SegOf(y1.s, hot.msgIdx, hot.packetId, cold.qos, true);
        var y2 := EnqueueMove(y1, PublishSeg(y1.s, hot.msgIdx, hot.packetId, cold.qos, true));
        y := FlushMove(y2);
        LeadsTrans(x, y1, y2);
        LeadsTrans(x, y2, y);
      }
    }
  }

  lemma EntryCan(x: Conn, slot: nat)
    requires StreamInv(x) && slot < |x.s.c.slots.hot| && Outgoing(x.s.c.slots.hot[slot])
    ensures Deliverable(x.s.p, x.s.c.slots.hot[slot].msgIdx)
  {
    hide Deliverable, QueueReady, HeadSent, Logged, InFlight, CtrlResumed;
  }

  lemma {:induction false} SweepMove(x: Conn, i: nat, found: nat) returns (y: Conn)
    requires StreamInv(x)
    ensures Leads(x, y) && y.s == Sweep(x.s, i, found)
    decreases |x.s.c.slots.hot| - i
  {
    hide QueueReady, EntriesDeliverable, HeadSent, Logged, InFlight, CtrlResumed, Timeout;
    y := x;
    if i < |x.s.c.slots.hot| && found < x.s.c.slots.count {
      if x.s.c.slots.hot[i].state == Free {
        y := SweepMove(x, i + 1, found);
      } else if Expired(x.s, i) {
        var y1 := TimeoutMove(x, i);
        y := SweepMove(y1, i + 1, found + 1);
        LeadsTrans(x, y1, y);
      } else {
        y := SweepMove(x, i + 1, found + 1);
      }
    }
  }

  lemma SweepClientMove(x: Conn) returns (y: Conn)
    requires StreamInv(x)
    ensures Leads(x, y) && y.s == SweepClient(x.s)
  {
    hide QueueReady, EntriesDeliverable, HeadSent, Logged, InFlight, CtrlResumed, Sweep;
    y := x;
    if !(x.s.c.state != Active || x.s.c.slots.count == 0) {
      y := SweepMove(x, 0, 0);
    }
  }

  // ---- completions ----

  /** The batch in flight. */
  function InWrite(c: Client): seq<Seg> {
    if c.batch <= |c.queue| then c.queue[..c.batch] else []
  }

  /** A completion that leaves the connection in order: nothing written, or some of the bytes that were offered,
      and the walk does not end inside a CTRL segment. */
  ghost predicate Tolerable(s: Site, res: int) {
    || res == -EAGAIN || res == -EINTR
    || (0 < res <= |Owed(s.p, InWrite(s.c))| && !CountWraps(InWrite(s.c)) && !CtrlResumed(Walked(s.c.queue, s.c.batch, res)))
  }

  lemma SettleMove(x: Conn, res: int) returns (y: Conn)
    requires StreamInv(x) && x.s.c.writing && Tolerable(x.s, res)
    ensures StreamInv(y) && y.s == Settle(x.s, res) && y.log == x.log && (Connected(x.s.c) ==> Connected(y.s.c))
    ensures y.accepted == x.accepted + if res > 0 then Take(Owed(x.s.p, InWrite(x.s.c)), res) else []
    ensures y.packets == x.packets + if res > 0 then Packets(x.s.p, x.s.c.queue, x.s.c.batch, res) else []
  {
    hide QueueReady, EntriesDeliverable, HeadSent, Logged, CtrlResumed, CountWraps, Walked, Owed, Complete, Fail, Shaped, NeedsId, Packets;
    MoveKeeps(x, Answer(res));
    y := After(x, Answer(res));
    if res > 0 {
      CompleteShape(x.s.(c := x.s.c.(writing := false)), x.s.c.batch, res);
    }
  }
}
