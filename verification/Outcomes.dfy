/** What becomes of a connection, field by field: a completed receive, a started close, a new receive, an accept, a completed
    close (src/broker/loop.h, src/broker/state.h). */
module Outcomes {
  import opened Common
  import opened Inflight
  import opened Shared
  import opened Egress
  import opened Broker
  import opened BrokerInv
  import opened SlotSteps
  import opened CloseSteps
  import Conservation
  import opened FanoutSteps
  import opened Ceremony
  import R = Runs

  // ---- receiving ----

  /** A completed receive of the present connection: with no bytes the peer has closed, below zero it failed, and in both cases
      the client is CLOSING; with bytes it stays ACTIVE. Either way the receive is no longer outstanding and nothing else
      changes. */
  lemma ReceiveOutcome(b: Broker, r: Recv, res: int)
    requires R.Shapes(b) && R.Possible(b, R.RecvCqe(r, res))
    requires b.clients[r.slot].generation == r.generation && b.clients[r.slot].state == Active
    requires Inv(b)
    ensures var c := b.clients[r.slot];
            R.Step(b, R.RecvCqe(r, res)) ==
            b.(recvs := b.recvs - {r},
               clients := b.clients[r.slot := c.(recvPending := false, state := if res <= 0 then Closing else Active)])
  {
    hide PoolInv, SubsInv, RecvInv, FreeList, Census;
    var chain :| SlotInv(b, chain);
    assert SlotOf(b, b.clients[r.slot].fd) == r.slot;
  }

  /** A receive that completes for an earlier connection of its slot, or while its own is closing or gone, gives the orphaned
      buffer back, whatever its result. */
  lemma StaleReceiveOutcome(b: Broker, r: Recv, res: int)
    requires R.Shapes(b) && R.Possible(b, R.RecvCqe(r, res))
    requires b.clients[r.slot].generation != r.generation || b.clients[r.slot].state != Active
    requires Inv(b)
    ensures var c := b.clients[r.slot];
            R.Step(b, R.RecvCqe(r, res)) ==
            b.(recvs := b.recvs - {r},
               p := b.p.(bufFree := b.p.bufFree + (if c.orphan == INVALID then [] else [c.orphan])),
               clients := b.clients[r.slot := c.(orphan := INVALID,
                                                 recvPending := c.recvPending && c.generation != r.generation)])
  {
    hide PoolInv, SlotInv, SubsInv, RecvInv, FreeOrphan;
    OrphanIsReal(b, r.slot);
    OrphanReturns(b.p, b.clients[r.slot]);
    OrphanReturns(b.p, b.clients[r.slot].(recvPending := false));
  }

  lemma OrphanReturns(p: Pools, c: Client)
    requires c.orphan == INVALID || c.orphan < |p.bufs|
    ensures FreeOrphan(p, c) ==
            Site(p.(bufFree := p.bufFree + (if c.orphan == INVALID then [] else [c.orphan])), c.(orphan := INVALID))
  {
    assert p.bufFree + [] == p.bufFree;
  }

  lemma OrphanIsReal(b: Broker, i: nat)
    requires PoolInv(b, multiset{}) && i < |b.clients|
    ensures b.clients[i].orphan == INVALID || b.clients[i].orphan < |b.p.bufs|
  {
    hide ClientsWell, Counted, Holders, HoldersBut, Owners, LiveBufs;
    if b.clients[i].orphan != INVALID {
      HoldersSplit(b.clients, i, b.clients[i]);
      var all := Bag(b.p.bufFree) + LiveBufs(b.p) + Holders(b.clients);
      assert b.clients[i].orphan in Held(b.clients[i]);
      assert b.clients[i].orphan in Holders(b.clients);
      assert b.clients[i].orphan in all;
    }
  }

  /** A new receive goes into the client's own buffer; with no room left in it the client is CLOSING instead. */
  lemma ReceiveStarts(b: Broker, i: nat, bufferFull: bool)
    requires R.Shapes(b) && R.Possible(b, R.StartRecv(i, bufferFull))
    requires Inv(b)
    ensures var r := R.Step(b, R.StartRecv(i, bufferFull)); var c := b.clients[i];
            && (bufferFull ==> r == b.(clients := b.clients[i := c.(state := Closing)]))
            && (!bufferFull ==> r.clients == b.clients[i := c.(recvPending := true)] && r == b.(clients := r.clients, recvs := r.recvs))
            && (!bufferFull ==> forall q :: q in r.recvs <==> q in b.recvs || (q.slot == i && q.generation == c.generation && q.buf == c.recvBuf))
  {
    hide PoolInv, SlotInv, SubsInv, RecvInv;
    BufferIsHeld(b, i);
  }

  lemma BufferIsHeld(b: Broker, i: nat)
    requires i < |b.clients| && Connected(b.clients[i])
    requires Inv(b)
    ensures b.clients[i].recvBuf != INVALID
  {
    hide SlotInv, SubsInv, RecvInv, Sound, Conservation.ClientOk;
    assert ClientWell(b, b.clients[i]);
  }

  // ---- connecting and closing ----

  /** Of b only the active client of this descriptor became CLOSING in r, if there is one. */
  ghost predicate OnlyCloses(b: Broker, fd: int, r: Broker) {
    && (forall i :: 0 <= i < |b.clients| && b.clients[i].state == Active && b.clients[i].fd == fd ==>
          r == b.(clients := b.clients[i := b.clients[i].(state := Closing)]))
    && ((forall i :: 0 <= i < |b.clients| ==> !(b.clients[i].state == Active && b.clients[i].fd == fd)) ==> r == b)
  }

  /** A close that is started makes the active client of this descriptor CLOSING, and without one changes nothing. */
  lemma CloseStarts(b: Broker, fd: int)
    requires Inv(b)
    ensures OnlyCloses(b, fd, SubmitClose(b, fd))
  {
    hide PoolInv, SubsInv, RecvInv, FreeList, Census;
    var chain :| SlotInv(b, chain);
  }

  /** With a free slot, a free buffer and a usable descriptor, the head of the free list becomes an active client under a new
      generation, with nothing queued, written, outstanding or in flight; otherwise nothing changes. */
  lemma AcceptOutcome(b: Broker, fd: int)
    requires R.Shapes(b) && R.Possible(b, R.Accept(fd))
    requires Inv(b)
    ensures var r := R.Step(b, R.Accept(fd)); var i := b.freeHead;
            if (exists k :: 0 <= k < |b.clients| && b.clients[k].state == Vacant) && 0 <= fd < |b.fdToSlot| && b.p.bufFree != [] then
              && i < |b.clients| == |r.clients| && b.clients[i].state == Vacant && r.clients == b.clients[i := r.clients[i]]
              && var c := r.clients[i];
                 && c.state == Active && c.fd == fd && c.generation == (b.clients[i].generation + 1) % 0x100 && c.cleanSession
                 && b.p.bufFree == r.p.bufFree + [c.recvBuf] && !c.recvPending && c.orphan == b.clients[i].orphan
                 && c.queue == [] && !c.writing && c.slots.count == 0 && |c.slots.hot| == b.maxInflight
                 && (forall k :: 0 <= k < |c.slots.hot| ==> c.slots.hot[k].state == Free)
                 && r == b.(p := b.p.(bufFree := r.p.bufFree), clients := r.clients, fdToSlot := b.fdToSlot[fd := i],
                            freeHead := r.freeHead, activeCount := b.activeCount + 1)
            else r == b
  {
    hide PoolInv, SlotInv, SubsInv, RecvInv;
    var chain :| SlotInv(b, chain);
    AcceptNeedsSlot(b, chain);
    if b.freeHead < |b.clients| {
      HeadIsFree(b, chain);
    }
  }

  lemma HeadIsFree(b: Broker, chain: seq<int>)
    requires SlotInv(b, chain) && b.freeHead < |b.clients|
    ensures b.clients[b.freeHead].state == Vacant
  {
  }

  /** A close that completes: a clean session frees slot, entries and subscriptions, any other sleeps with both. Its buffer is
      free again, or the slot's orphan while a receive is outstanding. */
  lemma CloseOutcome(b: Broker, i: nat)
    requires i < |b.clients| && Connected(b.clients[i]) && R.Shapes(b) && R.Possible(b, R.CloseCqe(b.clients[i].fd))
    requires Inv(b)
    ensures var r := R.Step(b, R.CloseCqe(b.clients[i].fd)); var c := b.clients[i];
            && |r.clients| == |b.clients| && r.clients == b.clients[i := r.clients[i]] && |r.nodes| == |b.nodes|
            && var d := r.clients[i];
               && d.state == (if c.cleanSession then Vacant else Dormant) && d.queue == [] && !d.writing && d.recvBuf == INVALID
               && (if c.cleanSession then NonFree(d.slots.hot) == 0 else d.slots == c.slots)
               && (forall k :: 0 <= k < |b.nodes| ==> forall j :: j in r.nodes[k] <==> j in b.nodes[k] && !(c.cleanSession && j == i))
               && (c.recvPending ==> d.orphan == c.recvBuf) && (!c.recvPending ==> d.orphan == c.orphan && c.recvBuf in r.p.bufFree)
               && 0 <= c.fd < |b.fdToSlot| && r.fdToSlot == b.fdToSlot[c.fd := -1]
               && r.activeCount == b.activeCount - 1 && r.dormantCount == b.dormantCount + (if c.cleanSession then 0 else 1)
  {
    hide PoolInv, SubsInv, RecvInv, FreeList, Census, CloseDone, FreeAll, NonFree, Conservation.Fit;
    var fd := b.clients[i].fd;
    var chain :| SlotInv(b, chain);
    assert SlotOf(b, fd) == i;
    ClosePoolsIff(b, fd);
    CloseShape(b, fd);
    TableAt(b, i);
    FreeAllKeeps(b.clients[i].slots);
    BufferReturns(b, i);
  }

  /** The buffer of a connected client exists, and what it holds is given up does not change that. */
  lemma BufferReturns(b: Broker, i: nat)
    requires i < |b.clients| && Connected(b.clients[i])
    requires PoolInv(b, multiset{})
    ensures b.clients[i].recvBuf < |Disconnect(At(b, i)).p.bufs|
  {
    hide ClientsWell, Sound, Holders, HoldersBut, Owners, OwnersBut, Disconnect, Conservation.Fit;
    FitAt(b, i, multiset{});
    Conservation.DisconnectReleases(At(b, i), multiset{} + OwnersBut(b.clients, i), Holders(b.clients));
    BufferIsReal(b, i);
  }

  lemma BufferIsReal(b: Broker, i: nat)
    requires i < |b.clients| && Connected(b.clients[i])
    requires PoolInv(b, multiset{})
    ensures b.clients[i].recvBuf < |b.p.bufs|
  {
    hide Conservation.ClientOk, Counted, Holders, HoldersBut, Owners, LiveBufs;
    assert ClientWell(b, b.clients[i]);
    HoldersSplit(b.clients, i, b.clients[i]);
    var all := Bag(b.p.bufFree) + LiveBufs(b.p) + Holders(b.clients);
    assert b.clients[i].recvBuf in Held(b.clients[i]);
    assert b.clients[i].recvBuf in Holders(b.clients);
    assert b.clients[i].recvBuf in all;
  }

  // ---- subscribing ----

  /** A subscription is there under the client's present generation, or gone, for this slot at this node and for no other. */
  lemma SubscriptionOutcome(b: Broker, i: nat, k: nat, j: int, n: nat)
    requires i < |b.clients| && k < |b.nodes| && n < |b.nodes|
    ensures var r := Subscribe(b, i, k);
            && r == b.(nodes := r.nodes) && |r.nodes| == |b.nodes|
            && (j in r.nodes[n] <==> j in b.nodes[n] || (j == i && n == k))
            && (j in r.nodes[n] ==> r.nodes[n][j] == if j == i && n == k then b.clients[i].generation else b.nodes[n][j])
    ensures var r := Unsubscribe(b, i, k);
            && r == b.(nodes := r.nodes) && |r.nodes| == |b.nodes|
            && (j in r.nodes[n] <==> j in b.nodes[n] && !(j == i && n == k))
            && (j in r.nodes[n] ==> r.nodes[n][j] == b.nodes[n][j])
  {
  }
}
