/** Closing and receiving: exactly when the single orphan of a slot is enough. */
module CloseSteps {
  import opened Common
  import opened Inflight
  import opened Shared
  import opened Egress
  import opened Conservation
  import opened Ceremony
  import opened Broker
  import opened BrokerInv
  import opened SlotSteps

  /** The connected slot a close completion is for. */
  predicate Closes(b: Broker, fd: int) {
    var i := SlotOf(b, fd);
    i >= 0 && Connected(b.clients[i]) && b.clients[i].fd == fd
  }

  /** A receive is outstanding while an earlier one is still waited for. */
  predicate OrphanTaken(c: Client) {
    c.recvPending && c.orphan != INVALID
  }

  /** The client record after a close, clean session or not. */
  ghost predicate Closed(c: Client, d: Client) {
    && (d.state == Vacant || d.state == Dormant)
    && d.generation == c.generation && d.recvPending == c.recvPending && d.capacity == c.capacity
    && d.queue == [] && !d.writing && d.recvBuf == INVALID
    && d.orphan == (if c.recvPending then c.recvBuf else c.orphan)
    && d.slots == (if d.state == Vacant then FreeAll(c.slots) else c.slots)
  }

  lemma CloseShape(b: Broker, fd: int)
    requires Closes(b, fd) && b.clients[SlotOf(b, fd)].recvBuf != INVALID
    requires Disconnect(At(b, SlotOf(b, fd))).c == b.clients[SlotOf(b, fd)].(queue := [])
    ensures var i := SlotOf(b, fd); var c := b.clients[i]; var r := CloseDone(b, fd);
            var s := LetGo(Disconnect(At(b, i)).p, c.(queue := []));
            && |r.clients| == |b.clients|
            && r.clients == b.clients[i := r.clients[i]]
            && Closed(c, r.clients[i])
            && r.clients[i].state == (if c.cleanSession then Vacant else Dormant)
            && r.clients[i].fd == (if c.cleanSession then b.freeHead else -1)
            && r.p == s.p
            && Held(r.clients[i]) == Held(s.c.(recvBuf := INVALID))
            && r.maxInflight == b.maxInflight && r.recvs == b.recvs && |r.nodes| == |b.nodes|
            && r.freeHead == (if c.cleanSession then i else b.freeHead)
            && r.fdToSlot == Unmap(b, fd)
            && r.activeCount == b.activeCount - 1
            && r.dormantCount == (if c.cleanSession then b.dormantCount else b.dormantCount + 1)
            && (forall k :: 0 <= k < |b.nodes| ==> r.nodes[k] == if c.cleanSession then b.nodes[k] - {i} else b.nodes[k])
  {
    hide Disconnect, FreeAll;
  }

  lemma ClosedWell(b: Broker, c: Client, d: Client)
    requires ClientWell(b, c) && Connected(c) && Closed(c, d)
    ensures ClientWell(b, d) && Refs(d) == multiset{}
  {
    FreeAllKeeps(c.slots);
    assert Resendable(d.slots);
  }

  /** Reference conservation and the buffer partition survive a close exactly when the orphan is not taken. */
  lemma ClosePoolsIff(b: Broker, fd: int)
    requires PoolInv(b, multiset{}) && Closes(b, fd)
    ensures Disconnect(At(b, SlotOf(b, fd))).c == b.clients[SlotOf(b, fd)].(queue := [])
    ensures b.clients[SlotOf(b, fd)].recvBuf != INVALID
    ensures PoolInv(CloseDone(b, fd), multiset{}) <==> !OrphanTaken(b.clients[SlotOf(b, fd)])
  {
    hide Sound, ClientOk, Refs, Disconnect, CloseDone, Owners, Holders, OwnersBut, HoldersBut, LetGo;
    var i := SlotOf(b, fd);
    var c := b.clients[i];
    assert ClientWell(b, c);
    FitAt(b, i, multiset{});
    DisconnectReleases(At(b, i), multiset{} + OwnersBut(b.clients, i), Holders(b.clients));
    CloseShape(b, fd);
    var r := CloseDone(b, fd);
    var d := r.clients[i];
    ClosedWell(b, c, d);
    HoldersSplit(b.clients, i, d);
    OwnersSplit(b.clients, i, d);
    assert multiset{} + OwnersBut(b.clients, i) == OwnersBut(b.clients, i);
    LetGoIff(Disconnect(At(b, i)).p, c.(queue := []), OwnersBut(b.clients, i), HoldersBut(b.clients, i));
    assert OwnersBut(b.clients, i) + Refs(d) == OwnersBut(b.clients, i);
    assert multiset{} + Owners(r.clients) == OwnersBut(b.clients, i);
    if !OrphanTaken(c) {
      ReplaceClient(b, r, i, d);
    }
  }

  lemma CloseKeepsSlots(b: Broker, r: Broker, i: nat, fd: int, chain: seq<int>)
    requires SlotInv(b, chain) && i < |b.clients| && Connected(b.clients[i]) && b.clients[i].fd == fd
    requires |r.clients| == |b.clients| && r.clients == b.clients[i := r.clients[i]]
    requires r.fdToSlot == Unmap(b, fd) && r.activeCount == b.activeCount - 1
    requires var clean := b.clients[i].cleanSession;
             && r.clients[i].state == (if clean then Vacant else Dormant)
             && r.clients[i].fd == (if clean then b.freeHead else -1)
             && r.freeHead == (if clean then i else b.freeHead)
             && r.dormantCount == (if clean then b.dormantCount else b.dormantCount + 1)
    ensures SlotInv(r, if b.clients[i].cleanSession then [i] + chain else chain)
  {
    hide FreeMembers, Census;
    CensusUpdate(b.clients, i, r.clients[i]);
    if b.clients[i].cleanSession {
      PushFree(b.clients, b.freeHead, chain, i, r.clients[i]);
    } else {
      OtherFree(b.clients, b.freeHead, chain, i, r.clients[i]);
    }
    assert FdsMapped(r);
  }

  lemma CloseKeepsSubs(b: Broker, r: Broker, i: nat)
    requires SubsInv(b) && i < |b.clients| && |r.clients| == |b.clients| && r.clients == b.clients[i := r.clients[i]]
    requires Closed(b.clients[i], r.clients[i]) && |r.nodes| == |b.nodes|
    requires forall k :: 0 <= k < |b.nodes| ==> r.nodes[k] == if r.clients[i].state == Vacant then b.nodes[k] - {i} else b.nodes[k]
    ensures SubsInv(r)
  {
    forall k | 0 <= k < |r.nodes|
      ensures NodeOk(r.clients, r.nodes[k])
    {
      assert NodeOk(b.clients, b.nodes[k]);
    }
  }

  lemma CloseKeepsRecvs(b: Broker, r: Broker, i: nat)
    requires RecvInv(b) && i < |b.clients| && |r.clients| == |b.clients| && r.clients == b.clients[i := r.clients[i]]
    requires Connected(b.clients[i]) && b.clients[i].recvBuf != INVALID && !OrphanTaken(b.clients[i])
    requires Closed(b.clients[i], r.clients[i]) && r.recvs == b.recvs
    ensures RecvInv(r)
  {
    var c, d := b.clients[i], r.clients[i];
    assert SlotRecvs(b.recvs, i, c);
    assert forall q :: !Current(d, q);
    if c.recvPending {
      assert Recv(i, c.generation, c.recvBuf) in b.recvs;
      assert forall q :: q in b.recvs && q.slot == i ==> q == Recv(i, c.generation, c.recvBuf);
    }
    assert SlotRecvs(r.recvs, i, d);
    OtherRecvs(b, r, i, d);
  }

  /** handle_close keeps every invariant exactly when the slot's orphan is not taken; otherwise a receive
      buffer that the kernel may still write to is lost for good. */
  lemma CloseKeepsIff(b: Broker, fd: int)
    requires Inv(b) && Closes(b, fd)
    ensures Inv(CloseDone(b, fd)) <==> !OrphanTaken(b.clients[SlotOf(b, fd)])
  {
    hide PoolInv, SlotInv, SubsInv, RecvInv, CloseDone, Disconnect, LetGo, Closed;
    ClosePoolsIff(b, fd);
    var i := SlotOf(b, fd);
    if !OrphanTaken(b.clients[i]) {
      CloseShape(b, fd);
      var r := CloseDone(b, fd);
      var chain :| SlotInv(b, chain);
      CloseKeepsSlots(b, r, i, fd, chain);
      CloseKeepsSubs(b, r, i);
      CloseKeepsRecvs(b, r, i);
    }
  }

  // ---- receiving ----

  /** Changes of one connected client that touch neither queue nor table nor buffers, only its state and
      its receive flag. */
  lemma FlagsKeep(b: Broker, r: Broker, i: nat, state: ClientState, pending: bool)
    requires Inv(b) && i < |b.clients| && Connected(b.clients[i]) && (state == Active || state == Closing)
    requires r == b.(clients := b.clients[i := b.clients[i].(state := state, recvPending := pending)], recvs := r.recvs)
    ensures PoolInv(r, multiset{}) && (exists chain :: SlotInv(r, chain)) && SubsInv(r)
  {
    hide PoolInv, SlotInv, SubsInv, RecvInv;
    FlagsKeepPools(b, r, i, state, pending);
    var chain :| SlotInv(b, chain);
    FlagsKeepSlots(b, r, i, state, pending, chain);
    FlagsKeepSubs(b, r, i, state, pending);
  }

  lemma FlagsIrrelevant(b: Broker, c: Client, d: Client)
    requires ClientWell(b, c) && Connected(c) == Connected(d) && (c.state == Vacant) == (d.state == Vacant)
    requires d == c.(state := d.state, recvPending := d.recvPending, orphan := d.orphan)
    ensures ClientWell(b, d) && Refs(d) == Refs(c)
    ensures d.orphan == c.orphan ==> Held(d) == Held(c)
  {
  }

  lemma FlagsKeepPools(b: Broker, r: Broker, i: nat, state: ClientState, pending: bool)
    requires PoolInv(b, multiset{}) && i < |b.clients| && Connected(b.clients[i]) && (state == Active || state == Closing)
    requires r == b.(clients := b.clients[i := b.clients[i].(state := state, recvPending := pending)], recvs := r.recvs)
    ensures PoolInv(r, multiset{})
  {
    hide Sound, OwnersBut, HoldersBut, Owners, Holders, Refs, Held, ClientWell;
    var d := b.clients[i].(state := state, recvPending := pending);
    SoundAt(b, i);
    FlagsIrrelevant(b, b.clients[i], d);
    ReplaceClient(b, r, i, d);
  }

  lemma FlagsKeepSlots(b: Broker, r: Broker, i: nat, state: ClientState, pending: bool, chain: seq<int>)
    requires SlotInv(b, chain) && i < |b.clients| && Connected(b.clients[i]) && (state == Active || state == Closing)
    requires r == b.(clients := b.clients[i := b.clients[i].(state := state, recvPending := pending)], recvs := r.recvs)
    ensures SlotInv(r, chain)
  {
    hide FreeList, Census;
    CensusUpdate(b.clients, i, r.clients[i]);
    OtherFree(b.clients, b.freeHead, chain, i, r.clients[i]);
  }

  lemma FlagsKeepSubs(b: Broker, r: Broker, i: nat, state: ClientState, pending: bool)
    requires SubsInv(b) && i < |b.clients| && Connected(b.clients[i]) && (state == Active || state == Closing)
    requires r == b.(clients := b.clients[i := b.clients[i].(state := state, recvPending := pending)], recvs := r.recvs)
    ensures SubsInv(r)
  {
    forall k | 0 <= k < |r.nodes|
      ensures NodeOk(r.clients, r.nodes[k])
    {
      assert NodeOk(b.clients, b.nodes[k]);
    }
  }

  lemma SubmitCloseKeeps(b: Broker, fd: int)
    requires Inv(b)
    ensures Inv(SubmitClose(b, fd))
  {
    hide PoolInv, SlotInv, SubsInv, SlotRecvs;
    var i := SlotOf(b, fd);
    if i >= 0 && b.clients[i].state == Active {
      var r := SubmitClose(b, fd);
      FlagsKeep(b, r, i, Closing, b.clients[i].recvPending);
      SameRecvs(b.recvs, i, b.clients[i], r.clients[i]);
      OtherRecvs(b, r, i, r.clients[i]);
    }
  }

  lemma SameRecvs(recvs: set<Recv>, i: nat, c: Client, d: Client)
    requires SlotRecvs(recvs, i, c) && Connected(c) == Connected(d)
    requires d == c.(state := d.state, queue := d.queue, slots := d.slots, writing := d.writing, batch := d.batch)
    ensures SlotRecvs(recvs, i, d)
  {
    assert forall r :: Current(c, r) == Current(d, r);
  }

  /** A receive is submitted on an active client that has none outstanding. */
  lemma SubmitRecvKeeps(b: Broker, i: nat, bufferFull: bool)
    requires Inv(b) && i < |b.clients| && b.clients[i].state == Active && !b.clients[i].recvPending
    ensures Inv(SubmitRecv(b, i, bufferFull))
  {
    hide PoolInv, SlotInv, SubsInv;
    var r := SubmitRecv(b, i, bufferFull);
    var c := b.clients[i];
    if c.recvBuf != INVALID {
      FlagsKeep(b, r, i, if bufferFull then Closing else Active, if bufferFull then false else true);
      assert SlotRecvs(b.recvs, i, c);
      var d := r.clients[i];
      assert forall q :: q in b.recvs && q.slot == i ==> !Current(c, q) && q.generation != c.generation;
      assert forall q :: q in b.recvs && q.slot == i ==> !Current(d, q);
      OtherRecvs(b, r, i, d);
    }
  }

  /** A completed receive that arrives while its connection is being closed frees an orphan that a
      still older receive targets. */
  predicate FreesForeignOrphan(b: Broker, r: Recv)
    requires r.slot < |b.clients|
  {
    var c := b.clients[r.slot];
    c.generation == r.generation && c.state == Closing && c.orphan != INVALID
  }

  lemma RecvDoneKeepsRecvs(b: Broker, r: Recv, d: Client)
    requires RecvInv(b) && r in b.recvs && !FreesForeignOrphan(b, r)
    requires var c := b.clients[r.slot];
             d == c.(recvPending := if c.generation == r.generation then false else c.recvPending,
                     orphan := if c.generation == r.generation && c.state == Active then c.orphan else INVALID)
    ensures SlotRecvs(b.recvs - {r}, r.slot, d)
  {
    var c := b.clients[r.slot];
    assert SlotRecvs(b.recvs, r.slot, c);
    if c.generation == r.generation && Connected(c) {
      assert Current(c, r);
      assert forall q :: q in b.recvs - {r} && q.slot == r.slot ==> !Current(c, q) && !Current(d, q);
    } else {
      assert !Current(c, r) && c.orphan == r.buf;
      assert forall q :: q in b.recvs - {r} && q.slot == r.slot ==> Current(c, q) && Current(d, q);
    }
  }

  /** State, descriptor and generation alone decide the slot lists and the subscriptions. */
  lemma SameMeta(b: Broker, r: Broker, i: nat, d: Client)
    requires i < |b.clients| && r == b.(p := r.p, recvs := r.recvs, clients := b.clients[i := d])
    requires d.state == b.clients[i].state && d.fd == b.clients[i].fd && d.generation == b.clients[i].generation
    requires exists chain :: SlotInv(b, chain)
    requires SubsInv(b)
    ensures (exists chain :: SlotInv(r, chain)) && SubsInv(r)
  {
    hide FreeList, Census;
    var chain :| SlotInv(b, chain);
    CensusUpdate(b.clients, i, d);
    SameFreeList(b.clients, r.clients, b.freeHead, chain);
    assert SlotInv(r, chain);
    forall k | 0 <= k < |r.nodes|
      ensures NodeOk(r.clients, r.nodes[k])
    {
      assert NodeOk(b.clients, b.nodes[k]);
    }
  }

  /** The client record and the pools after a completion, before a possible submit_close. */
  function Received(b: Broker, r: Recv): Broker
    requires r.slot < |b.clients|
  {
    var c := b.clients[r.slot];
    var c1 := if c.generation == r.generation then c.(recvPending := false) else c;
    var s := if c.generation == r.generation && c.state == Active then Site(b.p, c1) else FreeOrphan(b.p, c1);
    Put(b.(recvs := b.recvs - {r}), r.slot, s)
  }

  lemma ReceivedKeepsPools(b: Broker, r: Recv)
    requires PoolInv(b, multiset{}) && r.slot < |b.clients|
    ensures PoolInv(Received(b, r), multiset{})
    ensures Received(b, r).clients[r.slot] == b.clients[r.slot].(recvPending := Received(b, r).clients[r.slot].recvPending,
                                                                 orphan := Received(b, r).clients[r.slot].orphan)
  {
    hide Sound, Owners, Holders, OwnersBut, HoldersBut, Refs, Held, ClientWell, FreeOrphan;
    var i := r.slot;
    var c := b.clients[i];
    SoundAt(b, i);
    var c1 := if c.generation == r.generation then c.(recvPending := false) else c;
    FlagsIrrelevant(b, c, c1);
    FreeOrphanKeeps(b.p, c1, OwnersBut(b.clients, i) + Refs(c), HoldersBut(b.clients, i));
    var d := Received(b, r).clients[i];
    FlagsIrrelevant(b, c, d);
    ReplaceClient(b, Received(b, r), i, d);
  }

  /** handle_recv keeps every invariant exactly when it does not free an orphan that another receive
      still targets. */
  lemma RecvDoneKeepsIff(b: Broker, r: Recv, res: int)
    requires Inv(b) && r in b.recvs
    ensures r.slot < |b.clients|
    ensures Inv(RecvDone(b, r, res)) <==> !FreesForeignOrphan(b, r)
  {
    hide PoolInv, SlotInv, SubsInv, SlotRecvs, SubmitClose;
    var i := r.slot;
    var c := b.clients[i];
    var q := Received(b, r);
    ReceivedKeepsPools(b, r);
    SameMeta(b, q, i, q.clients[i]);
    if FreesForeignOrphan(b, r) {
      ForeignOrphanBreaks(b, r);
    } else {
      RecvDoneKeepsRecvs(b, r, q.clients[i]);
      OtherRecvs(b, q, i, q.clients[i]);
      SubmitCloseKeeps(q, c.fd);
    }
  }

  lemma ForeignOrphanBreaks(b: Broker, r: Recv)
    requires RecvInv(b) && r in b.recvs && FreesForeignOrphan(b, r)
    ensures !RecvInv(RecvDone(b, r, 0)) && forall res :: RecvDone(b, r, res) == RecvDone(b, r, 0)
  {
    var c := b.clients[r.slot];
    assert SlotRecvs(b.recvs, r.slot, c);
    var q :| q in b.recvs && q.slot == r.slot && !Current(c, q) && q.buf == c.orphan;
    var after := RecvDone(b, r, 0);
    assert q in after.recvs && !Current(after.clients[r.slot], q) && after.clients[r.slot].orphan == INVALID;
    assert !SlotRecvs(after.recvs, r.slot, after.clients[r.slot]);
  }
}
