/** Dangling segments inside the whole broker: exactly which events create one in the queue of which client, and when the
    byte stream of a connection is right over a whole run (src/broker/loop.h, src/broker/mqtt_fsm.h). */
module DanglingSteps {
  import opened Common
  import opened Bags
  import opened Inflight
  import opened Shared
  import opened Egress
  import opened Flush
  import opened Ceremony
  import Qos2
  import opened Conservation
  import Acks
  import opened Dangling
  import opened Naming
  import opened Broker
  import opened BrokerInv
  import opened SlotSteps
  import opened CloseSteps
  import opened FanoutSteps
  import R = Runs
  import S = BrokerStream
  import MessageBytes
  import ClientStream
  import opened Receipts

  // ---- one event ----

  ghost function LiveSet(p: Pools): (M: set<int>)
    ensures forall m :: m in M <==> Live(p, m)
  {
    set m: int | 0 <= m < |p.msgs| && m !in p.msgFree
  }

  /** The event gives up every reference that the message counts. */
  ghost predicate Forsakes(b: Broker, e: R.Event, m: u32)
    requires R.Shapes(b) && R.Possible(b, e)
  {
    Live(b.p, m) && b.p.msgs[m].refCount + Owners(R.Step(b, e).clients)[m] == Owners(b.clients)[m]
  }

  lemma OwnersCount(b: Broker, m: u32)
    requires Inv(b)
    ensures Live(b.p, m) <==> Owners(b.clients)[m] > 0
    ensures Live(b.p, m) ==> b.p.msgs[m].refCount == Owners(b.clients)[m]
  {
    hide SlotInv, SubsInv, RecvInv, ClientsWell, Partitioned, Owners, Holders;
    assert multiset{} + Owners(b.clients) == Owners(b.clients);
    assert m in Owners(b.clients) <==> Owners(b.clients)[m] > 0;
  }

  /** A live message is freed exactly by the event that forsakes it. */
  lemma ForsakenIff(b: Broker, e: R.Event, m: u32)
    requires Inv(b) && R.Possible(b, e) && Live(b.p, m)
    ensures R.Shapes(b) && (Forsakes(b, e, m) <==> !Live(R.Step(b, e).p, m))
  {
    hide Inv, Owners, R.Step, R.Possible, Live;
    R.StepKeeps(b, e);
    OwnersCount(b, m);
    OwnersCount(R.Step(b, e), m);
    LiveIn(b.p, m);
  }

  lemma LiveIn(p: Pools, m: u32)
    requires Live(p, m)
    ensures m < |p.msgs|
  {
  }

  /** What a connected client names is live as long as nothing in its queue dangles. */
  lemma NamesAreLive(b: Broker, i: nat)
    requires Inv(b) && i < |b.clients| && Connected(b.clients[i]) && NoneDangles(b.p, b.clients[i].queue)
    ensures Within(b.clients[i], LiveSet(b.p))
  {
    hide Inv, Refs, Partitioned, Owners, Holders, OwnersBut, Consistent, Live;
    var c := b.clients[i];
    R.ActiveFits(b, i);
    forall k | 0 <= k < |c.queue| && c.queue[k].kind == SEG_PUBLISH ensures c.queue[k].msgIdx in LiveSet(b.p) {
      assert !Dangles(b.p, c.queue[k]);
    }
    forall t | 0 <= t < |c.slots.hot| && Outgoing(c.slots.hot[t]) ensures c.slots.hot[t].msgIdx in LiveSet(b.p) {
      EntryOwns(At(b, i), t, multiset{} + OwnersBut(b.clients, i), Holders(b.clients));
    }
  }

  /** Events that touch neither queues nor tables of other clients. */
  lemma EventWithin(b: Broker, e: R.Event, i: nat, M: set<int>)
    requires Inv(b) && R.Shapes(b) && R.Possible(b, e) && i < |b.clients| && Connected(b.clients[i]) && Within(b.clients[i], M) && !e.Publish?
    ensures i < |R.Step(b, e).clients| && Within(R.Step(b, e).clients[i], M)
  {
    hide Inv, Within, Shaped, AcceptPossible, CloseDone, EgressFlush, SweepClient, EgressCqe, PubackReceived, PubrecReceived, AllocSlot, RecvDone,
         SubmitRecv, SubmitClose, Qos2.PubrelReceived;
    match e {
      case Puback(j, id) => if j == i { AckWithin(At(b, i), id, M); }
      case Pubrec(j, id) => if j == i { AckWithin(At(b, i), id, M); }
      case WritevCqe(j, generation, fd, res) => if j == i { CqeWithin(At(b, i), generation, fd, res, M); }
      case RetryFlush(j) => if j == i { FlushWithin(At(b, i), M); }
      case TimeoutSweep(j) => if j == i { SweepClientWithin(At(b, i), M); }
      case CloseCqe(fd) => CloseWithin(b, fd, i, M);
      case _ => IdleWithin(b, e, i, M);
    }
  }

  lemma IdleWithin(b: Broker, e: R.Event, i: nat, M: set<int>)
    requires Inv(b) && R.Shapes(b) && R.Possible(b, e) && i < |b.clients| && Connected(b.clients[i]) && Within(b.clients[i], M)
    requires e.Accept? || e.StartRecv? || e.KernelWrites? || e.MoveBytes? || e.RecvCqe? || e.Connect? || e.SubscribeAt? || e.UnsubscribeAt?
             || e.StartClose? || e.Tick? || e.Pubrel?
    ensures i < |R.Step(b, e).clients| && Within(R.Step(b, e).clients[i], M)
  {
    hide PoolInv, SubsInv, RecvInv, SlotInv, Within, Find;
    var c := b.clients[i];
    if e.Accept? {
      if AllocSlot(b, e.fd).slot >= 0 {
        var chain :| SlotInv(b, chain);
        AcceptKeepsSlots(b, e.fd, chain);
      }
    } else if e.Pubrel? {
      PubrelFrees(c, e.id, M);
    } else {
      SameWithin(c, R.Step(b, e).clients[i], M);
    }
  }

  lemma SameWithin(c: Client, d: Client, M: set<int>)
    requires Within(c, M) && d.queue == c.queue && d.slots == c.slots
    ensures Within(d, M)
  {
  }

  lemma PubrelFrees(c: Client, id: u16, M: set<int>)
    requires Within(c, M) && c.slots.hot != []
    ensures Within(c.(slots := Qos2.PubrelReceived(c.slots, id).slots), M)
  {
    hide Find;
  }

  lemma CloseWithin(b: Broker, fd: int, i: nat, M: set<int>)
    requires i < |b.clients| && Within(b.clients[i], M)
    ensures i < |CloseDone(b, fd).clients| && Within(CloseDone(b, fd).clients[i], M)
  {
    hide ReleaseEntries;
    var j := SlotOf(b, fd);
    if Closes(b, fd) {
      DrainEmpties(At(b, j));
    }
  }

  lemma {:induction false} DrainEmpties(s: Site)
    ensures Drain(s).c == s.c.(queue := [])
    decreases |s.c.queue|
  {
    hide Release;
    if s.c.queue != [] {
      DrainEmpties(DiscardHead(s));
    }
  }

  /** The message that this PUBLISH takes from the free stack. */
  function TakenBy(b: Broker): u32
    requires b.p.msgFree != []
  {
    b.p.msgFree[|b.p.msgFree| - 1]
  }

  lemma PublishWithin(b: Broker, e: R.Event, i: nat, M: set<int>)
    requires R.Shapes(b) && R.Possible(b, e) && i < |b.clients| && Within(b.clients[i], M) && e.Publish?
    ensures i < |R.Step(b, e).clients|
    ensures Within(R.Step(b, e).clients[i], if b.p.msgFree != [] then M + {TakenBy(b) as int} else M)
  {
    hide Within, FanOut, Qos2.PubReceived, Shaped;
    var j, pub := e.i, e.pub;
    var b1 := Noted(b, j, pub);
    NotedWithin(b, j, pub, i, M);
    if b.p.msgFree != [] {
      WiderWithin(b1.clients[i], M, M + {TakenBy(b) as int});
      if Qos2.PubReceived(b.clients[j].slots, pub.qos, pub.packetId, b.p.now).forward && b.p.bufFree != [] {
        var m := TakenBy(b);
        var b2 := Adopt(b1, j, m, pub);
        SameWithin(b1.clients[i], b2.clients[i], M + {m as int});
        FanOutWithin(Fan(b2, {}, []), m, pub.qos, e.matches, i, M + {m as int});
      }
    }
  }

  lemma WiderWithin(c: Client, M: set<int>, N: set<int>)
    requires Within(c, M) && M <= N
    ensures Within(c, N)
  {
  }

  lemma NotedWithin(b: Broker, j: nat, pub: Incoming, i: nat, M: set<int>)
    requires j < |b.clients| && i < |b.clients| && AllShaped(b.clients) && Within(b.clients[i], M)
    ensures AllShaped(Noted(b, j, pub).clients) && Within(Noted(b, j, pub).clients[i], M)
  {
    hide Qos2.PubReceived, Shaped;
    S.TrackFewer(b.clients[j].slots, pub.qos, pub.packetId, b.p.now);
  }

  /** The message of a PUBLISH is live afterwards if client i names it. */
  lemma PublishOwned(b: Broker, e: R.Event, i: nat)
    requires R.Possible(b, e) && i < |b.clients| && NoneDangles(b.p, b.clients[i].queue) && e.Publish? && b.p.msgFree != []
    requires Inv(b) && R.Shapes(b)
    ensures var r := R.Step(b, e);
            && i < |r.clients|
            && forall k :: 0 <= k < |r.clients[i].queue| && Names(r.clients[i].queue[k], TakenBy(b)) ==> Live(r.p, TakenBy(b))
  {
    hide Inv, PoolInv, FanOut, Qos2.PubReceived, Shaped, OwnedIfNamed, Adopt, PublishPossible, Refs, Owners, Names, Live;
    var j, pub, m := e.i, e.pub, TakenBy(b);
    TakenUnnamed(b, i);
    PublisherActive(b, e);
    var b1 := Noted(b, j, pub);
    NotedKeeps(b, j, pub);
    NotedQueue(b, j, pub, i);
    if Qos2.PubReceived(b.clients[j].slots, pub.qos, pub.packetId, b.p.now).forward && b.p.bufFree != [] {
      AdoptKeeps(b1, j, m, pub);
      var b2 := Adopt(b1, j, m, pub);
      AdoptShapes(b2, m);
      AdoptQueue(b1, j, m, pub, i);
      UnnamedOwned(b2.clients[i], m);
      FanOutTurned(Fan(b2, {}, []), m, pub.qos, e.matches, i);
      R.StepKeeps(b, e);
      OwnedLive(R.Step(b, e), i, m);
    }
  }

  lemma PublisherActive(b: Broker, e: R.Event)
    requires e.Publish? && R.Possible(b, e)
    ensures e.i < |b.clients| && b.clients[e.i].state == Active && !b.clients[e.i].recvPending
  {
  }

  lemma TakenUnnamed(b: Broker, i: nat)
    requires i < |b.clients| && NoneDangles(b.p, b.clients[i].queue) && b.p.msgFree != []
    ensures forall k :: 0 <= k < |b.clients[i].queue| ==> !Names(b.clients[i].queue[k], TakenBy(b))
  {
    forall k | 0 <= k < |b.clients[i].queue| ensures !Names(b.clients[i].queue[k], TakenBy(b)) {
      assert !Dangles(b.p, b.clients[i].queue[k]);
    }
  }

  lemma NotedQueue(b: Broker, j: nat, pub: Incoming, i: nat)
    requires i < |b.clients| && j < |b.clients| && Shaped(b.clients[j].slots)
    ensures Noted(b, j, pub).clients[i].queue == b.clients[i].queue && Noted(b, j, pub).p == b.p
  {
    hide Qos2.PubReceived;
  }

  lemma AdoptQueue(b: Broker, j: nat, m: u32, pub: Incoming, i: nat)
    requires i < |b.clients| && j < |b.clients| && b.p.bufFree != [] && m < |b.p.msgs| && b.p.msgFree != []
    ensures Adopt(b, j, m, pub).clients[i].queue == b.clients[i].queue && |Adopt(b, j, m, pub).clients| == |b.clients|
  {
  }

  lemma UnnamedOwned(c: Client, m: u32)
    requires forall k :: 0 <= k < |c.queue| ==> !Names(c.queue[k], m)
    ensures OwnedIfNamed(c, m)
  {
    hide Refs;
  }

  lemma OwnedLive(r: Broker, i: nat, m: u32)
    requires i < |r.clients| && OwnedIfNamed(r.clients[i], m)
    requires Inv(r)
    ensures forall k :: 0 <= k < |r.clients[i].queue| && Names(r.clients[i].queue[k], m) ==> Live(r.p, m)
  {
    hide Inv, Refs, Owners, OwnersBut, Live, Names;
    OwnersCount(r, m);
    OwnersSplit(r.clients, i, r.clients[i]);
    assert m in Refs(r.clients[i]) ==> (OwnersBut(r.clients, i) + Refs(r.clients[i]))[m] > 0;
  }

  /** Every event, every connected client: with no dangling segment before, its queue has one afterwards if and only if the
      queue then names a message that was live and all of whose references the event gives up. What the event itself queues,
      retransmissions and the message of a PUBLISH, never dangles. */
  lemma EventDanglesIff(b: Broker, e: R.Event, i: nat)
    requires R.Possible(b, e) && i < |b.clients| && Connected(b.clients[i]) && NoneDangles(b.p, b.clients[i].queue)
    requires Inv(b)
    ensures R.Shapes(b) && i < |R.Step(b, e).clients|
    ensures var q := R.Step(b, e).clients[i].queue;
            !NoneDangles(R.Step(b, e).p, q) <==> exists k :: 0 <= k < |q| && q[k].kind == SEG_PUBLISH && Forsakes(b, e, q[k].msgIdx)
  {
    hide Inv, R.Step, R.Possible, R.Shapes, Within, Live, Forsakes;
    R.InvHasShapes(b);
    NamesAreLive(b, i);
    var M := LiveSet(b.p);
    if e.Publish? {
      PublishWithin(b, e, i, M);
      if b.p.msgFree != [] {
        PublishOwned(b, e, i);
        ForsakesLive(b, e, TakenBy(b));
      }
    } else {
      EventWithin(b, e, i, M);
    }
    var q := R.Step(b, e).clients[i].queue;
    forall k | 0 <= k < |q| && q[k].kind == SEG_PUBLISH
      ensures Dangles(R.Step(b, e).p, q[k]) <==> Forsakes(b, e, q[k].msgIdx)
    {
      NamedAmong(R.Step(b, e).clients[i], if e.Publish? && b.p.msgFree != [] then M + {TakenBy(b) as int} else M, k);
      if Live(b.p, q[k].msgIdx) {
        ForsakenIff(b, e, q[k].msgIdx);
      } else {
        assert Names(q[k], TakenBy(b));
      }
    }
  }

  lemma NamedAmong(c: Client, M: set<int>, k: nat)
    requires Within(c, M) && k < |c.queue| && c.queue[k].kind == SEG_PUBLISH
    ensures c.queue[k].msgIdx in M
  {
  }

  lemma ForsakesLive(b: Broker, e: R.Event, m: u32)
    requires R.Shapes(b) && R.Possible(b, e) && b.p.msgFree != [] && m == TakenBy(b)
    ensures !Live(b.p, m) && !Forsakes(b, e, m)
  {
    assert m in b.p.msgFree;
  }

  // ---- what an event forsakes, from the state before it ----

  /** An event of one client forsakes a message if and only if the client gives up all references that it counts. */
  lemma SiteForsakesIff(b: Broker, e: R.Event, m: u32)
    requires e.Puback? || e.Pubrec? || e.WritevCqe? || e.RetryFlush? || e.TimeoutSweep?
    requires R.Shapes(b) && R.Possible(b, e) && m < |b.p.msgs|
    ensures e.i < |b.clients| && e.i < |R.Step(b, e).clients|
    ensures Forsakes(b, e, m) <==> Live(b.p, m) && GivesUp(At(b, e.i), R.Step(b, e).clients[e.i], m)
  {
    hide Refs, Owners, OwnersBut, PubackReceived, PubrecReceived, EgressCqe, EgressFlush, SweepClient, Shaped;
    OwnersSplit(b.clients, e.i, R.Step(b, e).clients[e.i]);
    OwnersSplit(b.clients, e.i, b.clients[e.i]);
    assert R.Step(b, e).clients == b.clients[e.i := R.Step(b, e).clients[e.i]];
  }

  /** A close forsakes a message if and only if the client owns all references that it counts. */
  lemma CloseForsakesIff(b: Broker, fd: int, m: u32)
    requires R.Possible(b, R.CloseCqe(fd)) && Closes(b, fd) && m < |b.p.msgs| && R.Shapes(b)
    ensures SlotOf(b, fd) >= 0
    ensures Forsakes(b, R.CloseCqe(fd), m) <==> Live(b.p, m) && b.p.msgs[m].refCount == Refs(b.clients[SlotOf(b, fd)])[m]
  {
    hide Refs, Owners, OwnersBut, Disconnect, FreeAll, Shaped;
    var j: nat := SlotOf(b, fd);
    var r := CloseDone(b, fd);
    OwnersSplit(b.clients, j, r.clients[j]);
    OwnersSplit(b.clients, j, b.clients[j]);
    assert r.clients == b.clients[j := r.clients[j]];
    Unconnected(r.clients[j]);
  }

  lemma Unconnected(c: Client)
    requires !Connected(c)
    ensures Refs(c) == multiset{}
  {
  }

  /** Events that leave the message pool alone forsake nothing. */
  lemma QuietForsakesNothing(b: Broker, e: R.Event, m: u32)
    requires R.Possible(b, e)
    requires e.Accept? || e.StartRecv? || e.KernelWrites? || e.MoveBytes? || e.RecvCqe? || e.Connect? || e.SubscribeAt? || e.UnsubscribeAt?
             || e.StartClose? || e.Tick? || e.Pubrel?
    requires Inv(b)
    ensures R.Shapes(b) && !Forsakes(b, e, m)
  {
    hide Inv, Live, Owners, Qos2.PubrelReceived;
    R.InvHasShapes(b);
    if Forsakes(b, e, m) {
      ForsakenIff(b, e, m);
      SamePool(b, e, m);
    }
  }

  lemma SamePool(b: Broker, e: R.Event, m: u32)
    requires R.Shapes(b) && R.Possible(b, e)
    requires e.Accept? || e.StartRecv? || e.KernelWrites? || e.MoveBytes? || e.RecvCqe? || e.Connect? || e.SubscribeAt? || e.UnsubscribeAt?
             || e.StartClose? || e.Tick? || e.Pubrel?
    ensures Live(R.Step(b, e).p, m) <==> Live(b.p, m)
  {
    hide Qos2.PubrelReceived, Shaped;
  }

  /** The next flush throws nothing away. */
  ghost predicate SendableHead(c: Client) {
    c.state == Active && !c.writing && c.queue != [] ==> !Unsendable(c.queue[0], c.generation)
  }

  lemma FlushGivesNothing(s: Site, X: multiset<int>, Y: multiset<int>)
    requires Fit(s, X, Y) && SendableHead(s.c)
    ensures Refs(EgressFlush(s).site.c) == Refs(s.c)
  {
    hide Sound, Consistent, Resendable, QueueRefs, EntryRefs, Gather, Offer;
    if !(s.c.writing || s.c.queue == [] || s.c.state != Active) {
      FewMessages(s.p, X + Refs(s.c), Y);
      GatherKeeps(s.p, s.c, 0);
    }
  }

  lemma FinishGives(s: Site, slot: nat)
    requires slot < |s.c.slots.hot| && Outgoing(s.c.slots.hot[slot]) && s.c.slots.hot[slot].msgIdx != INVALID && Connected(s.c)
    ensures Refs(s.c) == Refs(Finish(s, slot).c) + multiset{s.c.slots.hot[slot].msgIdx}
  {
    hide Release, QueueRefs, EntryRefs;
    var w := FreeSlot(s.c.slots, slot);
    EntryUpdate(s.c.slots.hot, slot, w.hot[slot]);
    assert w.hot == s.c.slots.hot[slot := w.hot[slot]];
    Regroup(QueueRefs(s.c.queue), EntryRefs(s.c.slots.hot), EntryRefs(w.hot), EntryRef(s.c.slots.hot[slot]));
  }

  /** The message of the entry that an acknowledgement is for. */
  ghost predicate Acknowledges(c: Client, id: u16, state: InflightState, m: u32) {
    exists t :: Acks.Awaits(c, id, state, t) && c.slots.hot[t].msgIdx == m
  }

  lemma AwaitedMessage(c: Client, id: u16, state: InflightState, m: u32)
    requires ClientOk(c) && (state == WaitPuback || state == WaitPubrec)
    ensures var d := Awaiting(c, id, state);
            && (d < 0 ==> !Acknowledges(c, id, state, m))
            && (d >= 0 ==> Outgoing(c.slots.hot[d]) && c.slots.hot[d].msgIdx != INVALID)
            && (d >= 0 ==> (Acknowledges(c, id, state, m) <==> c.slots.hot[d].msgIdx == m))
  {
    hide Consistent, SegOk, BatchOk;
    var d := Awaiting(c, id, state);
    Acks.AwaitingIff(c, id, state, d);
    if Acknowledges(c, id, state, m) {
      var t :| Acks.Awaits(c, id, state, t) && c.slots.hot[t].msgIdx == m;
      Acks.AwaitingIff(c, id, state, t);
    }
  }

  lemma PubackGives(s: Site, id: u16, m: u32, X: multiset<int>, Y: multiset<int>)
    requires Fit(s, X, Y) && SendableHead(s.c)
    ensures Refs(PubackReceived(s, id).c)[m] + (if Acknowledges(s.c, id, WaitPuback, m) then 1 else 0) == Refs(s.c)[m]
  {
    hide Sound, Consistent, Resendable, SegOk, Refs, EgressFlush, Awaiting, Acknowledges, Release;
    AwaitedMessage(s.c, id, WaitPuback, m);
    var d := Awaiting(s.c, id, WaitPuback);
    if d >= 0 {
      FinishGives(s, d);
      FinishKeeps(s, d, X, Y);
      FlushGivesNothing(Finish(s, d), X, Y);
    }
  }

  lemma PubrecGives(s: Site, id: u16, m: u32, X: multiset<int>, Y: multiset<int>)
    requires Fit(s, X, Y) && SendableHead(s.c)
    ensures Refs(PubrecReceived(s, id).c)[m] + (if Acknowledges(s.c, id, WaitPubrec, m) then 1 else 0) == Refs(s.c)[m]
  {
    hide Sound, Consistent, Resendable, SegOk, Refs, EgressFlush, Awaiting, Acknowledges, Finish, EnqueuePubrel, SendableHead;
    AwaitedMessage(s.c, id, WaitPubrec, m);
    var d := Awaiting(s.c, id, WaitPubrec);
    if d >= 0 {
      FinishGives(s, d);
      FinishKeeps(s, d, X, Y);
      SameHead(s, d);
      PubrelGives(Finish(s, d), id, X, Y);
    } else {
      PubrelGives(s, id, X, Y);
    }
  }

  lemma SameHead(s: Site, slot: nat)
    requires slot < |s.c.slots.hot| && SendableHead(s.c)
    ensures SendableHead(Finish(s, slot).c)
  {
    hide Release;
  }

  lemma PubrelGives(s: Site, id: u16, X: multiset<int>, Y: multiset<int>)
    requires Fit(s, X, Y) && SendableHead(s.c)
    ensures var t := s.(c := EnqueuePubrel(s.c, id)); Shaped(t.c.slots) && Refs(EgressFlush(t).site.c) == Refs(s.c) == Refs(t.c)
  {
    hide Sound, Consistent, Resendable, SegOk, Refs, EgressFlush;
    EnqueuePubrelKeeps(s, id, X, Y);
    var t := s.(c := EnqueuePubrel(s.c, id));
    PubrelOwnsNone(s.c, id);
    if s.c.queue != [] && !Full(s.c) {
      assert t.c.queue[0] == s.c.queue[0];
    }
    FlushGivesNothing(t, X, Y);
  }

  lemma PubrelOwnsNone(c: Client, id: u16)
    ensures Refs(EnqueuePubrel(c, id)) == Refs(c)
  {
    hide QueueRefs, EntryRefs;
    QueuePush(c.queue, PubrelSeg(c.generation, id));
  }

  ghost predicate Frees(b: Broker, e: R.Event, m: u32) {
    R.Shapes(b) && R.Possible(b, e) && Forsakes(b, e, m)
  }

  /** An acknowledgement forsakes a message if and only if it is for an entry with this message, and the message counts one
      reference. */
  lemma AckForsakesIff(b: Broker, j: nat, id: u16, m: u32)
    requires j < |b.clients| && b.clients[j].state == Active && SendableHead(b.clients[j]) && m < |b.p.msgs|
    requires Inv(b)
    ensures Frees(b, R.Puback(j, id), m) <==> Live(b.p, m) && b.p.msgs[m].refCount == 1 && Acknowledges(b.clients[j], id, WaitPuback, m)
    ensures Frees(b, R.Pubrec(j, id), m) <==> Live(b.p, m) && b.p.msgs[m].refCount == 1 && Acknowledges(b.clients[j], id, WaitPubrec, m)
  {
    hide Inv, Refs, Owners, Holders, OwnersBut, Fit, Acknowledges, SendableHead, Live, Forsakes, R.Possible, R.Step, R.Shapes;
    R.InvHasShapes(b);
    ShapesAt(b, j);
    AckSteps(b, j, id);
    OwnersCount(b, m);
    R.ActiveFits(b, j);
    var X, Y := multiset{} + OwnersBut(b.clients, j), Holders(b.clients);
    PubackGives(At(b, j), id, m, X, Y);
    PubrecGives(At(b, j), id, m, X, Y);
    SiteForsakesIff(b, R.Puback(j, id), m);
    SiteForsakesIff(b, R.Pubrec(j, id), m);
  }

  lemma ShapesAt(b: Broker, j: nat)
    requires R.Shapes(b) && j < |b.clients|
    ensures Shaped(b.clients[j].slots)
  {
  }

  lemma AckSteps(b: Broker, j: nat, id: u16)
    requires j < |b.clients| && b.clients[j].state == Active && R.Shapes(b)
    ensures R.Possible(b, R.Puback(j, id)) && R.Possible(b, R.Pubrec(j, id))
    ensures |R.Step(b, R.Puback(j, id)).clients| == |R.Step(b, R.Pubrec(j, id)).clients| == |b.clients|
    ensures R.Step(b, R.Puback(j, id)).clients[j] == PubackReceived(At(b, j), id).c
    ensures R.Step(b, R.Pubrec(j, id)).clients[j] == PubrecReceived(At(b, j), id).c
  {
    hide PubackReceived, PubrecReceived;
  }

  /** The references that a completion gives up before the flush that follows. */
  ghost function WriteDrops(s: Site, res: int): multiset<int>
    requires Shaped(s.c.slots)
  {
    if res > 0 then CompleteDrops(s.c.queue, s.c.batch, res)
    else if res == -EAGAIN || res == -EINTR then multiset{}
    else FailDrops(s.(c := s.c.(writing := false)), s.c.batch)
  }

  lemma SettleGives(s: Site, res: int, X: multiset<int>, Y: multiset<int>)
    requires Fit(s, X, Y) && s.c.writing && s.c.queue != [] && res < 0x8000_0000
    ensures Refs(s.c) == Refs(Settle(s, res).c) + WriteDrops(s, res)
  {
    hide Sound, Consistent, Resendable, SegOk, QueueRefs, EntryRefs, Complete, Fail, CompleteDrops, FailDrops, NeedsId;
    var s1 := s.(c := s.c.(writing := false));
    assert Refs(s1.c) == Refs(s.c);
    if res > 0 {
      CompleteGives(s1, s.c.batch, res, X, Y);
    } else if res != -EAGAIN && res != -EINTR {
      FailGives(s1, s.c.batch, X, Y);
    }
  }

  /** The completion of a write, failed or not, forsakes a message if and only if all references that it counts are those of
      the completed QoS 0 segments, or those that the fatal-error walk gives up. */
  lemma WriteForsakesIff(b: Broker, e: R.Event, m: u32)
    requires R.Possible(b, e) && e.WritevCqe? && e.i < |b.clients| && S.Completes(b, e, e.i) && m < |b.p.msgs|
    requires Connected(b.clients[e.i]) && Shaped(b.clients[e.i].slots) && SendableHead(Settle(At(b, e.i), e.res).c)
    requires Inv(b)
    ensures R.Shapes(b)
    ensures Forsakes(b, e, m) <==> Live(b.p, m) && b.p.msgs[m].refCount == WriteDrops(At(b, e.i), e.res)[m]
  {
    hide Inv, Refs, Owners, Holders, OwnersBut, Fit, Settle, EgressFlush, WriteDrops, SendableHead, Live, Forsakes, Keeps;
    R.InvHasShapes(b);
    R.ActiveFits(b, e.i);
    var s, X, Y := At(b, e.i), multiset{} + OwnersBut(b.clients, e.i), Holders(b.clients);
    SettleGives(s, e.res, X, Y);
    SettleFlushGives(s, e.generation, e.fd, e.res, X, Y);
    SiteForsakesIff(b, e, m);
  }

  lemma SettleFlushGives(s: Site, generation: byte, fd: int, res: int, X: multiset<int>, Y: multiset<int>)
    requires Fit(s, X, Y) && s.c.writing && s.c.queue != [] && res < 0x8000_0000 && s.c.generation == generation && s.c.fd == fd
    requires SendableHead(Settle(s, res).c)
    ensures Refs(EgressCqe(s, generation, fd, res).site.c) == Refs(Settle(s, res).c)
  {
    hide Sound, Consistent, Resendable, SegOk, Refs, Settle, EgressFlush, SendableHead;
    SettleKeeps(s, res, X, Y);
    FlushGivesNothing(Settle(s, res), X, Y);
  }

  // ---- a PUBLISH forsakes nothing ----

  lemma DeliveryKeepsRefs(s: Site, m: u32, qos: byte, n: int, X: multiset<int>, Y: multiset<int>)
    requires Fit(s, X, Y) && SendableHead(s.c) && m in X && (X + Refs(s.c))[m] + 1 < 0x1_0000_0000 && n != m
    ensures Refs(StartDelivery(s, m, qos).site.c)[n] == Refs(s.c)[n]
  {
    hide Sound, Consistent, Resendable, SegOk, Refs, EgressFlush, LoadWireLen, WireLenBytes, SegRef, Owns;
    RefKeeps(s.p, m, X + Refs(s.c), Y);
    var p := Ref(s.p, m);
    RefShape(s.p, m, X + Refs(s.c), Y);
    if !Full(s.c) {
      var seg := PublishSeg(s.(p := p), m, 0, qos, false);
      SegOk0(s, p, m, qos);
      PushOk(s.c, seg);
      SegRefOf(seg, m);
      var t := Site(p, Push(s.c, seg));
      assert X + Refs(s.c) + multiset{m} == X + Refs(t.c);
      if s.c.queue == [] && Unsendable(seg, s.c.generation) {
        FlushDiscards(t, seg);
        EmptyRefs(t.c, s.c);
      } else {
        if s.c.queue != [] {
          assert t.c.queue[0] == s.c.queue[0];
        }
        FlushGivesNothing(t, X, Y);
      }
    }
  }

  lemma SegOk0(s: Site, p: Pools, m: u32, qos: byte)
    ensures SegOk(PublishSeg(s.(p := p), m, 0, qos, false), s.c.generation)
  {
  }

  lemma SegRefOf(seg: Seg, m: u32)
    requires seg.kind == SEG_PUBLISH && seg.packetId == 0 && seg.msgIdx == m
    ensures forall n :: n != m ==> SegRef(seg)[n] == 0
    ensures m != INVALID ==> SegRef(seg) == multiset{m}
  {
  }

  lemma FlushDiscards(t: Site, seg: Seg)
    requires Shaped(t.c.slots) && t.c.queue == [seg] && Unsendable(seg, t.c.generation)
    ensures EgressFlush(t).site.c == t.c || EgressFlush(t).site.c == t.c.(queue := [])
  {
    hide Release, Shaped;
    var d := DiscardHead(t);
    assert d.c == t.c.(queue := []);
    assert PreClean(d) == d;
    assert PreClean(t) == PreClean(d);
  }

  /** An empty queue owns nothing. */
  lemma EmptyRefs(t: Client, c: Client)
    requires c.queue == [] && t == c.(queue := t.queue)
    ensures Refs(t.(queue := [])) == Refs(c)
  {
  }

  /** During fan-out: no client lost a reference of n, and who has not had a turn can be flushed without loss. */
  ghost predicate Untaken(f: Fan, b: Broker, n: int) {
    && |f.b.clients| == |b.clients|
    && forall i :: 0 <= i < |b.clients| ==> Refs(f.b.clients[i])[n] == Refs(b.clients[i])[n] && (i !in f.sent ==> SendableHead(f.b.clients[i]))
  }

  lemma DeliverUntaken(f: Fan, b: Broker, m: u32, qos: byte, j: nat, n: int)
    requires AllShaped(f.b.clients) && Untaken(f, b, n) && j < |f.b.clients| && f.b.clients[j].state == Active && j !in f.sent && n != m
    requires PoolInv(f.b, multiset{m})
    ensures var b' := Put(f.b, j, StartDelivery(At(f.b, j), m, qos).site);
            PoolInv(b', multiset{m}) && Untaken(Fan(b', f.sent + {j}, f.started + [j]), b, n)
  {
    hide PoolInv, StartDelivery, SendableHead, Shaped, Fit, Refs, OwnersBut, Holders;
    DeliverKeeps(f.b, j, m, qos);
    FitAt(f.b, j, multiset{m});
    CountsFit(f.b, multiset{m}, m);
    OwnersSplit(f.b.clients, j, f.b.clients[j]);
    assert multiset{m} + OwnersBut(f.b.clients, j) + Refs(f.b.clients[j]) == multiset{m} + Owners(f.b.clients);
    DeliveryKeepsRefs(At(f.b, j), m, qos, n, multiset{m} + OwnersBut(f.b.clients, j), Holders(f.b.clients));
  }

  lemma {:induction false} FanNodeUntaken(f: Fan, b: Broker, m: u32, qos: byte, node: map<int, byte>, j: nat, n: int)
    requires AllShaped(f.b.clients) && Untaken(f, b, n) && n != m && PoolInv(f.b, multiset{m})
    ensures var g := FanNode(f, m, qos, node, j); Untaken(g, b, n) && PoolInv(g.b, multiset{m})
    decreases |f.b.clients| - j
  {
    hide PoolInv, StartDelivery, SendableHead, Shaped, Refs;
    if j < |f.b.clients| {
      if j !in node || j in f.sent {
        FanNodeUntaken(f, b, m, qos, node, j + 1, n);
      } else if f.b.clients[j].state == Active && f.b.clients[j].generation == node[j] {
        DeliveryShape(At(f.b, j), m, qos);
        DeliverUntaken(f, b, m, qos, j, n);
        var b' := Put(f.b, j, StartDelivery(At(f.b, j), m, qos).site);
        FanNodeUntaken(Fan(b', f.sent + {j}, f.started + [j]), b, m, qos, node, j + 1, n);
      } else {
        FanNodeUntaken(f.(sent := f.sent + {j}), b, m, qos, node, j + 1, n);
      }
    }
  }

  lemma {:induction false} FanOutUntaken(f: Fan, b: Broker, m: u32, qos: byte, matches: seq<map<int, byte>>, n: int)
    requires AllShaped(f.b.clients) && Untaken(f, b, n) && n != m && PoolInv(f.b, multiset{m})
    ensures Untaken(FanOut(f, m, qos, matches), b, n)
    decreases |matches|
  {
    hide PoolInv, FanNode, Untaken, Shaped;
    if matches != [] {
      FanShape(f, m, qos, matches[0], 0);
      FanNodeUntaken(f, b, m, qos, matches[0], 0, n);
      FanOutUntaken(FanNode(f, m, qos, matches[0], 0), b, m, qos, matches[1..], n);
    }
  }

  lemma {:induction false} SumCounts(s: seq<multiset<int>>, t: seq<multiset<int>>, n: int)
    requires |s| == |t| && forall i :: 0 <= i < |s| ==> s[i][n] == t[i][n]
    ensures Sum(s)[n] == Sum(t)[n]
  {
    if s != [] {
      SumCounts(s[1..], t[1..], n);
    }
  }

  lemma OwnersSame(cs: seq<Client>, ds: seq<Client>, n: int)
    requires |cs| == |ds| && forall i :: 0 <= i < |cs| ==> Refs(cs[i])[n] == Refs(ds[i])[n]
    ensures Owners(cs)[n] == Owners(ds)[n]
  {
    hide Refs;
    SumCounts(OwnerBags(cs), OwnerBags(ds), n);
  }

  /** However many it is delivered to, a PUBLISH frees no message but its own. */
  lemma PublishForsakesNothing(b: Broker, e: R.Event, n: u32)
    requires e.Publish? && R.Possible(b, e) && forall i :: 0 <= i < |b.clients| ==> SendableHead(b.clients[i])
    requires Inv(b)
    ensures !Frees(b, e, n)
  {
    hide Inv, PoolInv, FanOut, Qos2.PubReceived, Shaped, Adopt, PublishPossible, Refs, Owners, SendableHead, Forsakes, R.Step, R.Possible, Live, Noted;
    R.InvHasShapes(b);
    if Frees(b, e, n) {
      OwnersCount(b, n);
      ForsakenCount(b, e, n);
      PublishOwners(b, e, n);
    }
  }

  lemma ForsakenCount(b: Broker, e: R.Event, n: u32)
    requires Frees(b, e, n)
    ensures Live(b.p, n) && n < |b.p.msgs| && b.p.msgs[n].refCount + Owners(R.Step(b, e).clients)[n] == Owners(b.clients)[n]
  {
  }

  lemma PublishOwners(b: Broker, e: R.Event, n: u32)
    requires e.Publish? && R.Possible(b, e) && (forall i :: 0 <= i < |b.clients| ==> SendableHead(b.clients[i])) && Live(b.p, n)
    requires Inv(b) && R.Shapes(b)
    ensures Owners(R.Step(b, e).clients)[n] == Owners(b.clients)[n]
  {
    hide Inv, PoolInv, FanOut, Qos2.PubReceived, Shaped, Adopt, PublishPossible, Refs, Owners, SendableHead, Noted, ClientWell;
    var j, pub := e.i, e.pub;
    PublisherActive(b, e);
    var b1 := Noted(b, j, pub);
    NotedKeeps(b, j, pub);
    NotedRefs(b, j, pub);
    NotedQueue(b, j, pub, j);
    OwnersSame(b1.clients, b.clients, n);
    if Qos2.PubReceived(b.clients[j].slots, pub.qos, pub.packetId, b.p.now).forward && b.p.msgFree != [] && b.p.bufFree != [] {
      var m := TakenBy(b);
      assert m in b.p.msgFree;
      AdoptKeeps(b1, j, m, pub);
      var b2 := Adopt(b1, j, m, pub);
      AdoptShapes(b2, m);
      AdoptRefs(b1, j, m, pub);
      FanOutUntaken(Fan(b2, {}, []), b2, m, pub.qos, e.matches, n);
      var f := FanOut(Fan(b2, {}, []), m, pub.qos, e.matches);
      OwnersSame(f.b.clients, b2.clients, n);
      OwnersSame(b2.clients, b1.clients, n);
    }
    PublishClients(b, e);
  }

  /** The clients after a PUBLISH are those after its ceremony, or after its fan-out. */
  lemma PublishClients(b: Broker, e: R.Event)
    requires e.Publish? && R.Possible(b, e) && R.Shapes(b) && AllShaped(Noted(b, e.i, e.pub).clients)
    ensures var b1 := Noted(b, e.i, e.pub);
            R.Step(b, e).clients ==
              if Qos2.PubReceived(b.clients[e.i].slots, e.pub.qos, e.pub.packetId, b.p.now).forward && b.p.msgFree != [] && b.p.bufFree != []
              then FanOut(Fan(Adopt(b1, e.i, TakenBy(b), e.pub), {}, []), TakenBy(b), e.pub.qos, e.matches).b.clients
              else b1.clients
  {
    hide FanOut, Qos2.PubReceived, Shaped;
  }

  lemma NotedRefs(b: Broker, j: nat, pub: Incoming)
    requires j < |b.clients| && Connected(b.clients[j]) && Shaped(b.clients[j].slots)
    requires Inv(b)
    ensures |Noted(b, j, pub).clients| == |b.clients|
    ensures forall i :: 0 <= i < |b.clients| ==> Refs(Noted(b, j, pub).clients[i]) == Refs(b.clients[i])
    ensures forall i :: 0 <= i < |b.clients| && SendableHead(b.clients[i]) ==> SendableHead(Noted(b, j, pub).clients[i])
    ensures AllShaped(b.clients) ==> AllShaped(Noted(b, j, pub).clients)
  {
    hide Sound, SlotInv, SubsInv, RecvInv, Refs, Qos2.PubReceived, Shaped, ClientOk;
    TrackingKeeps(b, b.clients[j], pub.qos, pub.packetId, b.p.now);
    S.TrackFewer(b.clients[j].slots, pub.qos, pub.packetId, b.p.now);
  }

  lemma AdoptRefs(b: Broker, j: nat, m: u32, pub: Incoming)
    requires j < |b.clients| && b.p.bufFree != [] && m < |b.p.msgs| && b.p.msgFree != []
    ensures var r := Adopt(b, j, m, pub);
            && |r.clients| == |b.clients|
            && forall i :: 0 <= i < |b.clients| ==> Refs(r.clients[i]) == Refs(b.clients[i])
                                                    && (SendableHead(b.clients[i]) ==> SendableHead(r.clients[i]))
  {
    hide QueueRefs, EntryRefs, Unsendable;
  }

  // ---- whole runs ----

  /** The event leaves every message that client i then has queued with a reference. */
  ghost predicate Spares(b: Broker, e: R.Event, i: nat)
    requires R.Shapes(b) && R.Possible(b, e)
  {
    i < |R.Step(b, e).clients| ==>
      var q := R.Step(b, e).clients[i].queue;
      !exists k :: 0 <= k < |q| && q[k].kind == SEG_PUBLISH && Forsakes(b, e, q[k].msgIdx)
  }

  ghost predicate AllSpare(b: Broker, es: seq<R.Event>, i: nat)
    requires Inv(b) && R.Feasible(b, es)
    decreases es
  {
    es != [] ==>
      && (R.StepKeeps(b, es[0]); Spares(b, es[0], i))
      && (R.StepKeeps(b, es[0]); AllSpare(R.Step(b, es[0]), es[1..], i))
  }

  /** Nothing dangles in the queue of client i in any state of the run. */
  ghost predicate NeverDangles(b: Broker, es: seq<R.Event>, i: nat)
    requires Inv(b) && R.Feasible(b, es)
    decreases es
  {
    && i < |b.clients| && NoneDangles(b.p, b.clients[i].queue)
    && (es != [] ==> (R.StepKeeps(b, es[0]); NeverDangles(R.Step(b, es[0]), es[1..], i)))
  }

  /** Over every run that a connection lives through, nothing in its queue ever dangles if and only if no event gives up all
      references of a message that the connection then has queued. */
  lemma {:induction false} NeverDanglesIff(b: Broker, es: seq<R.Event>, i: nat)
    requires Inv(b) && R.Feasible(b, es) && Stays(b, es, i) && i < |b.clients| && NoneDangles(b.p, b.clients[i].queue)
    ensures NeverDangles(b, es, i) <==> AllSpare(b, es, i)
    decreases es
  {
    hide Inv, R.Possible, R.Step, R.Shapes, Forsakes, NoneDangles;
    if es != [] {
      R.StepKeeps(b, es[0]);
      EventDanglesIff(b, es[0], i);
      if Spares(b, es[0], i) {
        NeverDanglesIff(R.Step(b, es[0]), es[1..], i);
      }
    }
  }

  /** What else the byte stream asks of an event: parsed offsets, and completions that leave the connection in order. */
  ghost predicate Orderly(b: Broker, e: R.Event, i: nat)
    requires i < |b.clients|
  {
    && (e.Publish? ==> MessageBytes.InBuffer(b, e.i, e.pub))
    && (S.Completes(b, e, i) ==> ClientStream.Tolerable(At(b, i), e.res))
  }

  ghost predicate AllOrderly(b: Broker, es: seq<R.Event>, i: nat)
    requires Inv(b) && R.Feasible(b, es)
    decreases es
  {
    es != [] ==>
      && i < |b.clients| && Orderly(b, es[0], i)
      && (R.StepKeeps(b, es[0]); AllOrderly(R.Step(b, es[0]), es[1..], i))
  }

  lemma SafeIsGuarded(b: Broker, e: R.Event, i: nat)
    requires i < |b.clients| && NoneDangles(b.p, b.clients[i].queue) && Lives(b, e, i) && Orderly(b, e, i)
    ensures S.Guard(b, e, i)
  {
    hide Live;
    forall k | 0 <= k < |b.clients[i].queue| ensures !Dangles(b.p, b.clients[i].queue[k]) {
    }
    if b.p.msgFree != [] {
      TakenUnnamed(b, i);
    }
  }

  /** If every event spares what the connection has queued, the guard of the stream theorem holds over the whole run. */
  lemma {:induction false} SparedIsGuarded(b: Broker, es: seq<R.Event>, i: nat)
    requires Inv(b) && R.Feasible(b, es) && Stays(b, es, i) && i < |b.clients| && NoneDangles(b.p, b.clients[i].queue)
    requires AllSpare(b, es, i) && AllOrderly(b, es, i)
    ensures S.Guarded(b, es, i)
    decreases es
  {
    hide Inv, R.Possible, R.Step, R.Shapes, Forsakes, NoneDangles, S.Guard, Orderly;
    if es != [] {
      R.StepKeeps(b, es[0]);
      SafeIsGuarded(b, es[0], i);
      EventDanglesIff(b, es[0], i);
      SparedIsGuarded(R.Step(b, es[0]), es[1..], i);
    }
  }
}
