/** Why a queued segment must not dangle: the buffer of a freed message goes to the next connection, and what its peer sends
    is then what the segment puts on the wire (src/mem/pool.h, src/broker/loop.h). */
module Reuse {
  import opened Common
  import Bags
  import opened Inflight
  import opened Shared
  import opened Egress
  import opened Stream
  import opened Dangling
  import opened Broker
  import opened BrokerInv
  import opened SlotSteps
  import opened Runs
  import opened Orphans

  /** Segment k of client i is ready to be sent, and its message's buffer is the next one the pool hands out. */
  ghost predicate Reusable(b: Broker, i: nat, k: nat) {
    && i < |b.clients| && Connected(b.clients[i]) && k < |b.clients[i].queue|
    && var s := b.clients[i].queue[k];
       && s.kind == SEG_PUBLISH && Ready(b.p, s) && b.p.msgs[s.msgIdx].topicLen > 0
       && b.p.bufFree != [] && b.p.bufFree[|b.p.bufFree| - 1] == b.p.msgs[s.msgIdx].bufIdx
  }

  lemma SegmentPlaced(b: Broker, s: Seg)
    requires s.kind == SEG_PUBLISH && Ready(b.p, s)
    ensures Placed(b.p, s.msgIdx)
  {
  }

  /** Such a segment dangles: a message in use has its buffer to itself. */
  lemma ReusableDangles(b: Broker, i: nat, k: nat)
    requires Inv(b) && Reusable(b, i, k)
    ensures Dangles(b.p, b.clients[i].queue[k])
  {
    hide SlotInv, SubsInv, RecvInv, ClientsWell, Counted, Holders, Ready;
    var m: nat := b.clients[i].queue[k].msgIdx;
    SegmentPlaced(b, b.clients[i].queue[k]);
    var x: nat := b.p.msgs[m].bufIdx;
    if Live(b.p, m) {
      OnePlace(b, x);
      InBothPlaces(b.p, m, x);
    }
  }

  lemma OnePlace(b: Broker, x: nat)
    requires Inv(b) && x < |b.p.bufs|
    ensures Bag(b.p.bufFree)[x] + LiveBufs(b.p)[x] <= 1
  {
    hide Inv, Bag, LiveBufs, Holders;
    BufferInOnePlace(b, x);
  }

  lemma InBothPlaces(p: Pools, m: nat, x: nat)
    requires Live(p, m) && p.msgs[m].bufIdx == x && x in p.bufFree
    ensures Bag(p.bufFree)[x] >= 1 && LiveBufs(p)[x] >= 1
  {
    Bags.SumUpdate(LiveBags(p), m, multiset{});
    assert LiveBag(p, m) <= LiveBufs(p);
    assert x in Bag(p.bufFree);
  }

  /** The first topic byte of the segment with another value. */
  function Flipped(p: Pools, m: u32): seq<byte>
    requires Placed(p, m) && p.msgs[m].topicLen > 0
  {
    var buf, at: nat := p.bufs[p.msgs[m].bufIdx], p.msgs[m].topicOff;
    var flipped: byte := if buf[at] == 0 then 1 else 0;
    buf[at := flipped]
  }

  lemma TopicOnWire(p: Pools, s: Seg)
    requires s.kind == SEG_PUBLISH && Placed(p, s.msgIdx) && p.msgs[s.msgIdx].topicLen > 0
    ensures |Head(p, s)| < |Wire(p, s)|
    ensures Wire(p, s)[|Head(p, s)|] == p.bufs[p.msgs[s.msgIdx].bufIdx][p.msgs[s.msgIdx].topicOff]
  {
    hide Head;
    FlattenFour(PublishIov(p, s));
  }

  lemma OverwriteShows(p: Pools, q: Pools, s: Seg)
    requires s.kind == SEG_PUBLISH && Placed(p, s.msgIdx) && p.msgs[s.msgIdx].topicLen > 0
    requires q.msgs == p.msgs && q.bufs == p.bufs[p.msgs[s.msgIdx].bufIdx := Flipped(p, s.msgIdx)]
    ensures Wire(q, s) != Wire(p, s)
  {
    hide Wire;
    TopicOnWire(p, s);
    TopicOnWire(q, s);
    assert Head(q, s) == Head(p, s);
  }

  function Overwrite(p: Pools, x: u32, data: seq<byte>): Pools {
    if x < |p.bufs| then p.(bufs := p.bufs[x := data]) else p
  }

  /** Writes to a buffer leave the packet of a segment alone, whatever they write, if and only if it is not the buffer of the
      segment's message. */
  lemma OverwriteIff(p: Pools, s: Seg, x: u32)
    requires s.kind == SEG_PUBLISH && Placed(p, s.msgIdx) && p.msgs[s.msgIdx].topicLen > 0 && x < |p.bufs|
    ensures (forall data: seq<byte> :: |data| == |p.bufs[x]| ==> Wire(Overwrite(p, x, data), s) == Wire(p, s))
            <==> p.msgs[s.msgIdx].bufIdx != x
  {
    if p.msgs[s.msgIdx].bufIdx == x {
      OverwriteShows(p, Overwrite(p, x, Flipped(p, s.msgIdx)), s);
      assert |Flipped(p, s.msgIdx)| == |p.bufs[x]|;
    } else {
      forall data: seq<byte> | |data| == |p.bufs[x]|
        ensures Wire(Overwrite(p, x, data), s) == Wire(p, s)
      {
        assert PublishIov(Overwrite(p, x, data), s) == PublishIov(p, s);
      }
    }
  }

  /** Accept, start of a receive, and one write of the kernel into the new connection's own buffer: the queue of client i is
      as it was, and its segment now puts other bytes on the wire. */
  lemma DanglingIsOverwritten(b: Broker, i: nat, k: nat, fd: int) returns (es: seq<Event>)
    requires Reusable(b, i, k) && b.freeHead < |b.clients| && 0 <= fd < |b.fdToSlot| && AcceptPossible(b, fd)
    requires Inv(b)
    ensures Feasible(b, es) && i < |Run(b, es).clients|
    ensures Run(b, es).clients[i].queue == b.clients[i].queue
    ensures Wire(Run(b, es).p, b.clients[i].queue[k]) != Wire(b.p, b.clients[i].queue[k])
  {
    hide Inv, FreshAt, Feasible, Run, Wire, Ready, AllocSlot, SubmitRecv, AcceptPossible;
    var s := b.clients[i].queue[k];
    var j := b.freeHead;
    SegmentPlaced(b, s);
    var data := Flipped(b.p, s.msgIdx);
    var e1, e2 := Accept(fd), StartRecv(j, false);
    Accepted(b, fd);
    AcceptedElsewhere(b, fd, i);
    StepKeeps(b, e1);
    var b1 := Step(b, e1);
    FreshFacts(b1, j, fd);
    Receiving(b1, j, fd);
    ReceivingElsewhere(b1, j, i);
    StepKeeps(b1, e2);
    var b2 := Step(b1, e2);
    var e3 := KernelWrites(Recv(j, b1.clients[j].generation, b1.clients[j].recvBuf), data);
    StepKeeps(b2, e3);
    var b3 := Step(b2, e3);
    OverwriteShows(b.p, b3.p, s);
    NoMore(b3);
    OneMore(b2, e3, []);
    OneMore(b1, e2, [e3] + []);
    es := [e1] + ([e2] + ([e3] + []));
    OneMore(b, e1, [e2] + ([e3] + []));
  }

  /** The new client gets the top buffer; nobody else notices. */
  lemma AcceptedElsewhere(b: Broker, fd: int, i: nat)
    requires Inv(b) && b.freeHead < |b.clients| && 0 <= fd < |b.fdToSlot| && b.p.bufFree != [] && AcceptPossible(b, fd)
    requires i < |b.clients| && Connected(b.clients[i])
    ensures var r := AllocSlot(b, fd).b;
            && i != b.freeHead && i < |r.clients| && r.clients[i] == b.clients[i] && b.freeHead < |r.clients|
            && r.clients[b.freeHead].recvBuf == b.p.bufFree[|b.p.bufFree| - 1]
            && r.p.msgs == b.p.msgs && r.p.bufs == b.p.bufs
  {
    hide PoolInv, SubsInv, RecvInv, SlotInv;
    var chain :| SlotInv(b, chain);
    AcceptKeepsSlots(b, fd, chain);
  }

  lemma ReceivingElsewhere(b: Broker, j: nat, i: nat)
    requires i < |b.clients| && j < |b.clients| && i != j
    ensures SubmitRecv(b, j, false).clients[i] == b.clients[i] && SubmitRecv(b, j, false).p == b.p
  {
  }
}
