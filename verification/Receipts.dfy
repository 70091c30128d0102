/** QoS 2 reception inside the whole broker: how the inflight table of one connection moves over any run, and when an
    acknowledged message reaches fan-out exactly once (src/broker/mqtt_fsm.h, src/broker/handler.h, src/broker/loop.h). */
module Receipts {
  import opened Common
  import opened Inflight
  import opened Shared
  import opened Egress
  import opened Flush
  import opened Ceremony
  import opened Qos2
  import FatalWrite
  import opened Broker
  import opened BrokerInv
  import opened SlotSteps
  import opened FanoutSteps
  import Conservation
  import R = Runs

  // ---- events on outgoing entries ----

  ghost predicate AllAside(es: seq<Event>) { forall k :: 0 <= k < |es| ==> Aside(es[k]) }

  /** Some sequence of events on outgoing entries makes w of v. */
  ghost predicate Drifts(v: Slots, w: Slots) {
    Consistent(v) && exists es :: AllAside(es) && Feasible(v, es) && Last(v, es) == w
  }

  lemma DriftSelf(v: Slots)
    requires Consistent(v)
    ensures Drifts(v, v)
  {
    hide Consistent;
    assert AllAside([]) && Feasible(v, []) && Last(v, []) == v;
  }

  lemma DriftOne(v: Slots, e: Event)
    requires Consistent(v) && Possible(v, e) && Aside(e)
    ensures Consistent(After(v, e)) && Drifts(v, After(v, e))
  {
    hide EntryOk, NonFree, After;
    AfterKeeps(v, e);
    assert [e][1..] == [];
    assert AllAside([e]) && Feasible(v, [e]) && Last(v, [e]) == After(v, e);
  }

  lemma {:induction false} RunAppend(v: Slots, es: seq<Event>, fs: seq<Event>)
    requires Consistent(v) && Feasible(v, es) && Feasible(Last(v, es), fs)
    ensures Feasible(v, es + fs) && Last(v, es + fs) == Last(Last(v, es), fs)
    decreases es
  {
    hide EntryOk, NonFree, After, Possible;
    if es == [] {
      assert es + fs == fs;
    } else {
      AfterKeeps(v, es[0]);
      RunAppend(After(v, es[0]), es[1..], fs);
      assert (es + fs)[0] == es[0] && (es + fs)[1..] == es[1..] + fs;
    }
  }

  lemma DriftTrans(v: Slots, w: Slots, u: Slots)
    requires Drifts(v, w) && Drifts(w, u)
    ensures Drifts(v, u)
  {
    hide Consistent, Feasible, Last;
    var es :| AllAside(es) && Feasible(v, es) && Last(v, es) == w;
    var fs :| AllAside(fs) && Feasible(w, fs) && Last(w, fs) == u;
    RunAppend(v, es, fs);
    assert AllAside(es + fs);
  }

  lemma {:induction false} AsideReceives(v: Slots, es: seq<Event>)
    requires Consistent(v) && AllAside(es) && Feasible(v, es)
    ensures Receiving(Last(v, es)) == Receiving(v)
    decreases es
  {
    hide EntryOk, NonFree, After, Possible, Receiving;
    if es != [] {
      AfterKeeps(v, es[0]);
      AsideReceives(After(v, es[0]), es[1..]);
    }
  }

  /** No receipt comes or goes. */
  lemma DriftReceives(v: Slots, w: Slots, id: u16)
    requires Drifts(v, w)
    ensures Consistent(w) && (InReceipt(w, id) <==> InReceipt(v, id))
  {
    hide Consistent, Feasible, Last, Receiving, InReceipt;
    var es :| AllAside(es) && Feasible(v, es) && Last(v, es) == w;
    AsideReceives(v, es);
    InReceiptIff(v, id);
    InReceiptIff(w, id);
  }

  // ---- the ceremonies of one client ----

  lemma {:induction false} GatherDrifts(p: Pools, c: Client, i: nat)
    requires Shaped(c.slots) && Consistent(c.slots)
    ensures Drifts(c.slots, Gather(p, c, i).c.slots)
    decreases EGRESS_BATCH_MAX - i
  {
    hide EntryOk, NonFree, Alloc, Joins, NeedsId, Drifts;
    DriftSelf(c.slots);
    if i < EGRESS_BATCH_MAX && i < |c.queue| && Joins(p, c, i) {
      if NeedsId(c.queue[i]) {
        var send := Send(c.queue[i].qos, c.queue[i].msgIdx, p.now + INFLIGHT_TIMEOUT_MS);
        var t := Alloc(c.slots, c.queue[i].qos, c.queue[i].msgIdx, p.now + INFLIGHT_TIMEOUT_MS);
        if t.slot >= 0 {
          DriftOne(c.slots, send);
          GatherDrifts(p, Numbered(c, i, t), i + 1);
          DriftTrans(c.slots, t.slots, Gather(p, c, i).c.slots);
        }
      } else {
        GatherDrifts(p, c, i + 1);
      }
    }
  }

  lemma FlushDrifts(s: Site)
    requires Shaped(s.c.slots) && Consistent(s.c.slots)
    ensures Drifts(s.c.slots, EgressFlush(s).site.c.slots)
  {
    hide EntryOk, NonFree, PreClean, Gather, Offer, Drifts;
    DriftSelf(s.c.slots);
    PreCleanShape(s);
    if !(s.c.writing || s.c.queue == [] || s.c.state != Active) {
      GatherDrifts(PreClean(s).p, PreClean(s).c, 0);
    }
  }

  lemma KickDrifts(s: Site)
    requires Shaped(s.c.slots) && Consistent(s.c.slots)
    ensures Drifts(s.c.slots, Kick(s).c.slots)
  {
    hide EntryOk, NonFree, EgressFlush, Drifts;
    DriftSelf(s.c.slots);
    FlushDrifts(s);
  }

  lemma FinishDrifts(s: Site, slot: nat)
    requires Consistent(s.c.slots) && slot < |s.c.slots.hot| && Outgoing(s.c.slots.hot[slot])
    ensures Consistent(Finish(s, slot).c.slots) && Drifts(s.c.slots, Finish(s, slot).c.slots)
  {
    hide EntryOk, NonFree, FreeSlot, Drifts, Release;
    DriftOne(s.c.slots, Done(slot));
  }

  lemma AwaitedIsOutgoing(c: Client, id: u16, state: InflightState)
    requires Consistent(c.slots) && (state == WaitPuback || state == WaitPubrec) && Awaiting(c, id, state) >= 0
    ensures Outgoing(c.slots.hot[Awaiting(c, id, state)])
  {
    assert EntryOk(c.slots.hot, Awaiting(c, id, state));
  }

  lemma AckDrifts(s: Site, id: u16)
    requires Shaped(s.c.slots) && Consistent(s.c.slots)
    ensures Drifts(s.c.slots, PubackReceived(s, id).c.slots)
    ensures Drifts(s.c.slots, PubrecReceived(s, id).c.slots)
  {
    hide EntryOk, NonFree, EgressFlush, Finish, Kick, Drifts, Awaiting;
    DriftSelf(s.c.slots);
    var d := Awaiting(s.c, id, WaitPuback);
    if d >= 0 {
      AwaitedIsOutgoing(s.c, id, WaitPuback);
      FinishDrifts(s, d);
      KickDrifts(Finish(s, d));
      DriftTrans(s.c.slots, Finish(s, d).c.slots, PubackReceived(s, id).c.slots);
    }
    var e := Awaiting(s.c, id, WaitPubrec);
    if e >= 0 {
      AwaitedIsOutgoing(s.c, id, WaitPubrec);
      FinishDrifts(s, e);
      var f := Finish(s, e).(c := EnqueuePubrel(Finish(s, e).c, id));
      KickDrifts(f);
      DriftTrans(s.c.slots, f.c.slots, PubrecReceived(s, id).c.slots);
    } else {
      FlushDrifts(s.(c := EnqueuePubrel(s.c, id)));
    }
  }

  lemma TimeoutDrifts(s: Site, slot: nat)
    requires Shaped(s.c.slots) && Consistent(s.c.slots) && slot < |s.c.slots.hot| && Outgoing(s.c.slots.hot[slot])
    ensures Consistent(Timeout(s, slot).c.slots) && Drifts(s.c.slots, Timeout(s, slot).c.slots)
  {
    hide EntryOk, NonFree, EgressFlush, Finish, Drifts, PublishSeg;
    var v := s.c.slots;
    var cold := v.cold[slot];
    if cold.dupCount >= MAX_RETRIES {
      FinishDrifts(s, slot);
    } else {
      var retry := Retry(slot, cold.(dupCount := cold.dupCount + 1, deadline := s.p.now + INFLIGHT_TIMEOUT_MS));
      DriftOne(v, retry);
      var s1 := s.(c := s.c.(slots := After(v, retry)));
      if Full(s.c) {
        FinishDrifts(s1, slot);
      } else {
        var hot := v.hot[slot];
        FlushDrifts(s1.(c := Push(s1.c, PublishSeg(s1, hot.msgIdx, hot.packetId, cold.qos, true))));
      }
      DriftTrans(v, s1.c.slots, Timeout(s, slot).c.slots);
    }
    DriftReceives(v, Timeout(s, slot).c.slots, 1);
  }

  lemma {:induction false} SweepDrifts(s: Site, i: nat, found: nat)
    requires Shaped(s.c.slots) && Consistent(s.c.slots)
    ensures Drifts(s.c.slots, Sweep(s, i, found).c.slots)
    decreases |s.c.slots.hot| - i
  {
    hide EntryOk, NonFree, Timeout, Drifts;
    DriftSelf(s.c.slots);
    if i < |s.c.slots.hot| && found < s.c.slots.count {
      if s.c.slots.hot[i].state == Free {
        SweepDrifts(s, i + 1, found);
      } else if Expired(s, i) {
        TimeoutDrifts(s, i);
        SweepDrifts(Timeout(s, i), i + 1, found + 1);
        DriftTrans(s.c.slots, Timeout(s, i).c.slots, Sweep(s, i, found).c.slots);
      } else {
        SweepDrifts(s, i + 1, found + 1);
      }
    }
  }

  lemma SweepClientDrifts(s: Site)
    requires Shaped(s.c.slots) && Consistent(s.c.slots)
    ensures Drifts(s.c.slots, SweepClient(s).c.slots)
  {
    hide EntryOk, NonFree, Sweep, Drifts;
    DriftSelf(s.c.slots);
    SweepDrifts(s, 0, 0);
  }

  lemma DeliveryDrifts(s: Site, m: u32, qos: byte)
    requires Shaped(s.c.slots) && Consistent(s.c.slots)
    ensures Drifts(s.c.slots, StartDelivery(s, m, qos).site.c.slots)
  {
    hide EntryOk, NonFree, EgressFlush, Drifts, PublishSeg, Ref, Release;
    DriftSelf(s.c.slots);
    var p := Ref(s.p, m);
    FlushDrifts(Site(p, Push(s.c, PublishSeg(s.(p := p), m, 0, qos, false))));
  }

  // ---- completions ----

  /** The completion of the write in flight of slot i says that the write failed. */
  predicate FailsWrite(b: Broker, e: R.Event, i: nat)
    requires i < |b.clients|
  {
    var c := b.clients[i];
    && e.WritevCqe? && e.i == i && c.generation == e.generation && c.fd == e.fd && c.queue != []
    && e.res <= 0 && e.res != -EAGAIN && e.res != -EINTR
  }

  lemma CqeDrifts(s: Site, generation: byte, fd: int, res: int)
    requires Shaped(s.c.slots) && Consistent(s.c.slots)
    ensures var failed := s.c.generation == generation && s.c.fd == fd && s.c.queue != [] && res <= 0 && res != -EAGAIN && res != -EINTR;
            var v := if failed then Undo(s.c.slots, FatalWrite.SentIds(s.c.queue, s.c.batch)) else s.c.slots;
            Drifts(v, EgressCqe(s, generation, fd, res).site.c.slots)
  {
    hide EntryOk, NonFree, EgressFlush, Drifts, Complete, Fail, Undo;
    DriftSelf(s.c.slots);
    if s.c.generation == generation && s.c.fd == fd && s.c.queue != [] {
      var s1 := s.(c := s.c.(writing := false));
      if res > 0 {
        CompleteShape(s1, s.c.batch, res);
      } else if res != -EAGAIN && res != -EINTR {
        FatalWrite.FailUndoes(s1, s.c.batch);
        UndoKeeps(s.c.slots, FatalWrite.SentIds(s.c.queue, s.c.batch));
        DriftSelf(Undo(s.c.slots, FatalWrite.SentIds(s.c.queue, s.c.batch)));
      }
      FlushDrifts(Settle(s, res));
    }
  }

  // ---- fan-out ----

  lemma {:induction false} FanNodeDrifts(f: Fan, m: u32, qos: byte, node: map<int, byte>, j: nat, i: nat)
    requires AllShaped(f.b.clients) && i < |f.b.clients| && Consistent(f.b.clients[i].slots)
    ensures var g := FanNode(f, m, qos, node, j);
            i < |g.b.clients| && Drifts(f.b.clients[i].slots, g.b.clients[i].slots)
    decreases |f.b.clients| - j
  {
    hide EntryOk, NonFree, StartDelivery, Drifts;
    DriftSelf(f.b.clients[i].slots);
    if j < |f.b.clients| {
      if j !in node || j in f.sent {
        FanNodeDrifts(f, m, qos, node, j + 1, i);
      } else if f.b.clients[j].state == Active && f.b.clients[j].generation == node[j] {
        DeliveryShape(At(f.b, j), m, qos);
        var b' := Put(f.b, j, StartDelivery(At(f.b, j), m, qos).site);
        if i == j {
          DeliveryDrifts(At(f.b, i), m, qos);
          DriftReceives(f.b.clients[i].slots, b'.clients[i].slots, 1);
        }
        var f' := Fan(b', f.sent + {j}, f.started + [j]);
        FanNodeDrifts(f', m, qos, node, j + 1, i);
        DriftTrans(f.b.clients[i].slots, b'.clients[i].slots, FanNode(f', m, qos, node, j + 1).b.clients[i].slots);
      } else {
        FanNodeDrifts(f.(sent := f.sent + {j}), m, qos, node, j + 1, i);
      }
    }
  }

  lemma {:induction false} FanOutDrifts(f: Fan, m: u32, qos: byte, matches: seq<map<int, byte>>, i: nat)
    requires AllShaped(f.b.clients) && i < |f.b.clients| && Consistent(f.b.clients[i].slots)
    ensures var g := FanOut(f, m, qos, matches);
            i < |g.b.clients| && Drifts(f.b.clients[i].slots, g.b.clients[i].slots)
    decreases |matches|
  {
    hide EntryOk, NonFree, FanNode, Drifts;
    DriftSelf(f.b.clients[i].slots);
    if matches != [] {
      FanShape(f, m, qos, matches[0], 0);
      FanNodeDrifts(f, m, qos, matches[0], 0, i);
      var g := FanNode(f, m, qos, matches[0], 0);
      DriftReceives(f.b.clients[i].slots, g.b.clients[i].slots, 1);
      FanOutDrifts(g, m, qos, matches[1..], i);
      DriftTrans(f.b.clients[i].slots, g.b.clients[i].slots, FanOut(g, m, qos, matches[1..]).b.clients[i].slots);
    }
  }

  // ---- one event of the broker ----

  /** The event of the table of slot i that the broker event is, if it is one that concerns receipts. */
  ghost function Head(b: Broker, e: R.Event, i: nat): (h: seq<Event>)
    requires i < |b.clients|
    ensures |h| <= 1 && (h != [] ==> h[0].Publish? || h[0].Pubrel? || h[0].WriteFailed?)
  {
    if e.Publish? && e.i == i && e.pub.qos == 2 then [Publish(e.pub.packetId, b.p.now)]
    else if e.Pubrel? && e.i == i then [Pubrel(e.id)]
    else if FailsWrite(b, e, i) then [WriteFailed(FatalWrite.SentIds(b.clients[i].queue, b.clients[i].batch))]
    else []
  }

  function Headed(v: Slots, h: seq<Event>): Slots
    requires Shaped(v) && |h| <= 1 && (h != [] ==> Possible(v, h[0]))
  {
    if h == [] then v else After(v, h[0])
  }

  /** The connection of slot i is there and the event does not end it. */
  ghost predicate Lives(b: Broker, e: R.Event, i: nat) {
    i < |b.clients| && Connected(b.clients[i]) && (e.CloseCqe? ==> e.fd != b.clients[i].fd)
  }

  /** The table of slot i after the event. */
  ghost predicate TableMoves(b: Broker, e: R.Event, i: nat, r: Broker)
    requires i < |b.clients| && Consistent(b.clients[i].slots)
  {
    i < |r.clients| && Drifts(Headed(b.clients[i].slots, Head(b, e, i)), r.clients[i].slots)
  }

  lemma SameTable(b: Broker, e: R.Event, i: nat, r: Broker)
    requires i < |b.clients| && Consistent(b.clients[i].slots) && Head(b, e, i) == []
    requires i < |r.clients| && r.clients[i].slots == b.clients[i].slots
    ensures TableMoves(b, e, i, r)
  {
    hide EntryOk, NonFree, Drifts;
    DriftSelf(b.clients[i].slots);
  }

  lemma PublishTable(b: Broker, e: R.Event, i: nat)
    requires Inv(b) && R.Shapes(b) && e.Publish? && R.Possible(b, e) && i < |b.clients| && Consistent(b.clients[i].slots)
    ensures TableMoves(b, e, i, R.Step(b, e))
  {
    hide Inv, EntryOk, NonFree, Drifts, PubReceived, FanOut, PublishPossible;
    var j, pub := e.i, e.pub;
    PublisherIs(b, e);
    var b1 := Noted(b, j, pub);
    NotedTable(b, j, pub, i, e);
    DriftSelf(b1.clients[i].slots);
    if PubReceived(b.clients[j].slots, pub.qos, pub.packetId, b.p.now).forward && b.p.msgFree != [] && b.p.bufFree != [] {
      var m := b.p.msgFree[|b.p.msgFree| - 1];
      assert m in b.p.msgFree;
      var b2 := Adopt(b1, j, m, pub);
      assert forall k :: 0 <= k < |b2.clients| ==> b2.clients[k].slots == b1.clients[k].slots;
      FanOutDrifts(Fan(b2, {}, []), m, pub.qos, e.matches, i);
    }
  }

  lemma PublisherIs(b: Broker, e: R.Event)
    requires e.Publish? && R.Possible(b, e)
    ensures e.i < |b.clients|
  {
  }

  lemma NotedTable(b: Broker, j: nat, pub: Incoming, i: nat, e: R.Event)
    requires j < |b.clients| && i < |b.clients| && AllShaped(b.clients) && Consistent(b.clients[i].slots)
    requires e.Publish? && e.i == j && e.pub == pub
    ensures AllShaped(Noted(b, j, pub).clients)
    ensures Noted(b, j, pub).clients[i].slots == Headed(b.clients[i].slots, Head(b, e, i))
    ensures Consistent(Noted(b, j, pub).clients[i].slots)
  {
    hide EntryOk, NonFree, Find, Track;
    if Head(b, e, i) != [] {
      AfterKeeps(b.clients[i].slots, Head(b, e, i)[0]);
    }
    forall k | 0 <= k < |b.clients| ensures Shaped(Noted(b, j, pub).clients[k].slots) {
      TrackShape(b.clients[j].slots, pub.packetId, b.p.now + INFLIGHT_TIMEOUT_MS);
    }
  }

  lemma TrackShape(v: Slots, id: u16, deadline: int)
    requires Shaped(v)
    ensures Shaped(Track(v, id, deadline).slots)
  {
    hide Search, TrackedAt;
  }

  /** Events that leave every table alone. */
  lemma IdleTable(b: Broker, e: R.Event, i: nat)
    requires Inv(b) && R.Shapes(b) && R.Possible(b, e) && Lives(b, e, i)
    requires e.Accept? || e.StartRecv? || e.KernelWrites? || e.MoveBytes? || e.RecvCqe? || e.Connect? || e.SubscribeAt? || e.UnsubscribeAt?
             || e.StartClose? || e.CloseCqe? || e.Tick?
    ensures var r := R.Step(b, e); i < |r.clients| && r.clients[i].slots == b.clients[i].slots
  {
    hide PoolInv, SubsInv, RecvInv, SlotInv, Disconnect;
    match e {
      case Accept(fd) =>
        if AllocSlot(b, fd).slot >= 0 {
          var chain :| SlotInv(b, chain);
          AcceptKeepsSlots(b, fd, chain);
        }
      case _ =>
    }
  }

  /** Over one event the table of a living connection makes at most one step that concerns receipts, then steps on outgoing
      entries only. */
  lemma StepTable(b: Broker, e: R.Event, i: nat)
    requires Inv(b) && R.Possible(b, e) && Lives(b, e, i)
    ensures R.Shapes(b) && Consistent(b.clients[i].slots) && TableMoves(b, e, i, R.Step(b, e))
  {
    hide Inv, EntryOk, NonFree, Drifts, PublishPossible, AcceptPossible, PublishReceived, CloseDone, EgressFlush, SweepClient, EgressCqe,
         PubackReceived, PubrecReceived, PubrelReceived, AllocSlot, RecvDone;
    R.InvHasShapes(b);
    TableOk(b, i);
    var v := b.clients[i].slots;
    DriftSelf(v);
    match e {
      case Publish(_, _, _) => PublishTable(b, e, i);
      case Pubrel(j, id) =>
        if j == i {
          AfterKeeps(v, Pubrel(id));
          DriftSelf(After(v, Pubrel(id)));
        }
      case Puback(j, id) => if j == i { AckDrifts(At(b, i), id); }
      case Pubrec(j, id) => if j == i { AckDrifts(At(b, i), id); }
      case WritevCqe(j, generation, fd, res) => if j == i { CqeDrifts(At(b, i), generation, fd, res); }
      case RetryFlush(j) => if j == i { FlushDrifts(At(b, i)); }
      case TimeoutSweep(j) => if j == i { SweepClientDrifts(At(b, i)); }
      case _ =>
        IdleTable(b, e, i);
        SameTable(b, e, i, R.Step(b, e));
    }
  }

  lemma TableOk(b: Broker, i: nat)
    requires Inv(b) && i < |b.clients|
    ensures Consistent(b.clients[i].slots)
  {
    hide SlotInv, SubsInv, RecvInv, Conservation.Fit, Sound;
    assert ClientWell(b, b.clients[i]);
  }

  // ---- exactly once, to fan-out ----

  /** A QoS 2 PUBLISH of client i with this id. */
  predicate Arrives(e: R.Event, i: nat, id: u16) {
    e.Publish? && e.i == i && e.pub.qos == 2 && e.pub.packetId == id
  }

  /** It is fanned out. */
  ghost predicate Reaches(b: Broker, e: R.Event, i: nat, id: u16)
    requires i < |b.clients| && Shaped(b.clients[i].slots)
  {
    Arrives(e, i, id) && FansOut(b, i, e.pub)
  }

  /** It is answered with PUBREC. */
  ghost predicate Acknowledged(b: Broker, e: R.Event, i: nat, id: u16)
    requires i < |b.clients| && Shaped(b.clients[i].slots)
  {
    Arrives(e, i, id) && PubReceived(b.clients[i].slots, 2, id, b.p.now).reply == Qos2.Pubrec(id)
  }

  /** Both pools have something left. */
  predicate Pooled(b: Broker) { b.p.msgFree != [] && b.p.bufFree != [] }

  /** An acknowledged PUBLISH without a receipt reaches fan-out if and only if both pools have something left. Otherwise it
      is recorded and answered all the same, and its repetition goes to fan-out only while an outgoing entry hides it. */
  lemma AcknowledgedReachesIff(b: Broker, i: nat, pub: Incoming, matches: seq<map<int, byte>>, later: int)
    requires i < |b.clients| && R.Shapes(b) && pub.qos == 2 && pub.packetId != 0 && !InReceipt(b.clients[i].slots, pub.packetId)
    requires PubReceived(b.clients[i].slots, 2, pub.packetId, b.p.now).reply == Qos2.Pubrec(pub.packetId)
    requires Consistent(b.clients[i].slots)
    ensures FansOut(b, i, pub) <==> Pooled(b)
    ensures !Pooled(b) ==> PublishReceived(b, i, pub, matches).1 == []
    ensures var v := PubReceived(b.clients[i].slots, 2, pub.packetId, b.p.now).slots;
            && InReceipt(v, pub.packetId)
            && (!Shadowed(v, pub.packetId) ==> PubReceived(v, 2, pub.packetId, later).reply == Qos2.Pubrec(pub.packetId)
                                               && !PubReceived(v, 2, pub.packetId, later).forward)
  {
    hide InReceipt, PubReceived, FanOut, Shadowed, EntryOk, NonFree;
    var v := b.clients[i].slots;
    EventExact(v, Publish(pub.packetId, b.p.now), pub.packetId);
    var w := PubReceived(v, 2, pub.packetId, b.p.now).slots;
    EventExact(w, Publish(pub.packetId, later), pub.packetId);
  }

  /** Such a state is one accept away from any broker without messages. */
  lemma EmptyPoolSwallows(n: nat, maxInflight: nat, capacity: nat, maxFds: nat, nodeCount: nat, bufSize: nat, pub: Incoming)
    requires 0 < n <= MAX_CLIENTS && ValidMax(maxInflight) && capacity <= Conservation.MAX_EGRESS && maxFds > 0 && pub.qos == 2 && pub.packetId != 0
    ensures var b := R.Init(n, maxInflight, capacity, 0, maxFds, nodeCount, bufSize); var e := R.Publish(0, pub, []);
            && Inv(b) && R.Shapes(b) && R.Possible(b, R.Accept(0))
            && var b1 := R.Step(b, R.Accept(0));
               && Inv(b1) && R.Shapes(b1) && R.Possible(b1, e) && 0 < |b1.clients|
               && Acknowledged(b1, e, 0, pub.packetId) && !InReceipt(b1.clients[0].slots, pub.packetId)
               && !Reaches(b1, e, 0, pub.packetId)
  {
    hide Inv, EntryOk, NonFree, PubReceived, Shadowed;
    var b := R.Init(n, maxInflight, capacity, 0, maxFds, nodeCount, bufSize);
    R.InitHolds(n, maxInflight, capacity, 0, maxFds, nodeCount, bufSize);
    R.StepKeeps(b, R.Accept(0));
    var b1 := R.Step(b, R.Accept(0));
    R.InvHasShapes(b1);
    TableOk(b1, 0);
    NothingTrackedOf(b1.clients[0].slots, pub.packetId);
    BlankCounts(b1.clients[0].slots);
    EventExact(b1.clients[0].slots, Publish(pub.packetId, b1.p.now), pub.packetId);
  }

  lemma NothingTrackedOf(v: Slots, id: u16)
    requires forall s :: 0 <= s < |v.hot| ==> v.hot[s].state == Free
    ensures !InReceipt(v, id)
  {
  }

  lemma BlankCounts(v: Slots)
    requires Consistent(v) && forall s :: 0 <= s < |v.hot| ==> v.hot[s].state == Free
    ensures v.count < |v.hot|
  {
    CountDecides(v.hot);
  }

  /** What an event must meet for client i and an id: PUBREL does not find its receipt hidden, no write fails that holds the id
      of a receipt in its direct slot, and the pools have something left for a PUBLISH that passes if and only if the
      publisher's receipt is not open. */
  ghost predicate GuardAt(b: Broker, e: R.Event, i: nat, id: u16)
    requires i < |b.clients| && Shaped(b.clients[i].slots)
  {
    var v := b.clients[i].slots;
    && (Arrives(e, i, id) && v.count < |v.hot| ==>
          && (InReceipt(v, id) ==> !(Shadowed(v, id) && Pooled(b)))
          && (!InReceipt(v, id) ==> Pooled(b)))
    && (e.Pubrel? && e.i == i && e.id == id ==> !(InReceipt(v, id) && Shadowed(v, id)))
    && (FailsWrite(b, e, i) ==> !(id in FatalWrite.SentIds(b.clients[i].queue, b.clients[i].batch) && SitsDirect(v, id)))
  }

  /** The receiver of section 4.3.3 for client i: open from an acknowledged PUBLISH to the next PUBREL. */
  ghost predicate OpenAfter(b: Broker, e: R.Event, i: nat, id: u16, open: bool)
    requires i < |b.clients| && Shaped(b.clients[i].slots)
  {
    if Acknowledged(b, e, i, id) then true else if e.Pubrel? && e.i == i && e.id == id then false else open
  }

  /** The receipts of one id around the head of an event. */
  lemma HeadExact(v: Slots, h: seq<Event>, id: u16)
    requires Consistent(v) && id != 0 && |h| <= 1 && (h != [] ==> Possible(v, h[0]))
    ensures var open, hidden := InReceipt(v, id), Shadowed(v, id);
            InReceipt(Headed(v, h), id) <==>
              if h == [] then open
              else Passes(v, h[0], id)
                   || (open && !(h[0] == Pubrel(id) && !hidden) && !(h[0].WriteFailed? && id in h[0].ids && SitsDirect(v, id)))
    ensures h != [] ==> (Passes(v, h[0], id) <==>
              h[0].Publish? && h[0].id == id && v.count < |v.hot| && (!InReceipt(v, id) || Shadowed(v, id)))
    ensures h != [] ==> (Answered(v, h[0], id) <==>
              Passes(v, h[0], id) || (h[0].Publish? && h[0].id == id && InReceipt(v, id) && !Shadowed(v, id)))
    ensures SitsDirect(v, id) ==> InReceipt(v, id)
  {
    hide InReceipt, Shadowed, SitsDirect, Passes, Answered, EntryOk, NonFree, After;
    if h != [] {
      EventExact(v, h[0], id);
    } else if SitsDirect(v, id) {
      DirectIsReceipt(v, id);
    }
  }

  /** What the head of an event is. */
  lemma HeadKinds(b: Broker, e: R.Event, i: nat, id: u16)
    requires i < |b.clients| && Shaped(b.clients[i].slots)
    ensures var v, h := b.clients[i].slots, Head(b, e, i);
            && (Arrives(e, i, id) <==> h != [] && h[0].Publish? && h[0].id == id)
            && (Reaches(b, e, i, id) <==> h != [] && Passes(v, h[0], id) && Pooled(b))
            && (Acknowledged(b, e, i, id) <==> h != [] && Answered(v, h[0], id))
            && ((e.Pubrel? && e.i == i && e.id == id) <==> h != [] && h[0] == Pubrel(id))
            && (FailsWrite(b, e, i) <==> h != [] && h[0].WriteFailed?)
            && (FailsWrite(b, e, i) ==> h[0].ids == FatalWrite.SentIds(b.clients[i].queue, b.clients[i].batch))
  {
    hide Find, Track, FatalWrite.SentIds;
  }

  /** One broker event keeps client i in step with that receiver if and only if it meets the guard. */
  lemma EventOnce(b: Broker, e: R.Event, i: nat, id: u16)
    requires Inv(b) && R.Possible(b, e) && Lives(b, e, i) && id != 0
    ensures R.Shapes(b) && i < |R.Step(b, e).clients|
    ensures var open := InReceipt(b.clients[i].slots, id);
            && (Reaches(b, e, i, id) <==> Acknowledged(b, e, i, id) && !open)
            && (InReceipt(R.Step(b, e).clients[i].slots, id) <==> OpenAfter(b, e, i, id, open))
            <==> GuardAt(b, e, i, id)
  {
    hide Inv, R.Possible, R.Step, R.Shapes, InReceipt, Shadowed, SitsDirect, Passes, Answered, EntryOk, NonFree, Drifts, FailsWrite, Arrives, Reaches,
         Acknowledged, Pooled, Head, Headed, Lives;
    LivesThere(b, e, i);
    StepTable(b, e, i);
    var v := b.clients[i].slots;
    DriftReceives(Headed(v, Head(b, e, i)), R.Step(b, e).clients[i].slots, id);
    HeadExact(v, Head(b, e, i), id);
    HeadKinds(b, e, i, id);
  }

  lemma LivesThere(b: Broker, e: R.Event, i: nat)
    requires Lives(b, e, i)
    ensures i < |b.clients|
  {
  }

  /** The connection lives through the run. */
  ghost predicate Stays(b: Broker, es: seq<R.Event>, i: nat)
    requires Inv(b) && R.Feasible(b, es)
    decreases es
  {
    es != [] ==> Lives(b, es[0], i) && (R.StepKeeps(b, es[0]); Stays(R.Step(b, es[0]), es[1..], i))
  }

  ghost predicate GuardedRun(b: Broker, es: seq<R.Event>, i: nat, id: u16)
    requires Inv(b) && R.Feasible(b, es) && Stays(b, es, i)
    decreases es
  {
    es != [] ==>
      && (R.StepKeeps(b, es[0]); GuardAt(b, es[0], i, id))
      && (R.StepKeeps(b, es[0]); GuardedRun(R.Step(b, es[0]), es[1..], i, id))
  }

  /** At every event of the run a PUBLISH of client i with this id is fanned out exactly when the receiver of section 4.3.3
      would deliver it, and the table has a receipt exactly while that receiver is open. */
  ghost predicate OnceInRun(b: Broker, es: seq<R.Event>, i: nat, id: u16, open: bool)
    requires Inv(b) && R.Feasible(b, es) && Stays(b, es, i) && i < |b.clients|
    decreases es
  {
    && (InReceipt(b.clients[i].slots, id) <==> open)
    && (es != [] ==>
          && (R.StepKeeps(b, es[0]); i < |R.Step(b, es[0]).clients|)
          && (Reaches(b, es[0], i, id) <==> Acknowledged(b, es[0], i, id) && !open)
          && (R.StepKeeps(b, es[0]); OnceInRun(R.Step(b, es[0]), es[1..], i, id, OpenAfter(b, es[0], i, id, open))))
  }

  /** How often a PUBLISH of client i with this id is fanned out. */
  ghost function FannedOut(b: Broker, es: seq<R.Event>, i: nat, id: u16): nat
    requires Inv(b) && R.Feasible(b, es) && Stays(b, es, i)
    decreases es
  {
    if es == [] then 0
    else
      R.StepKeeps(b, es[0]);
      Count(Reaches(b, es[0], i, id)) + FannedOut(R.Step(b, es[0]), es[1..], i, id)
  }

  /** How many handshakes client i completes with this id: PUBRELs that find the receiver open. */
  ghost function Completed(b: Broker, es: seq<R.Event>, i: nat, id: u16, open: bool): nat
    requires Inv(b) && R.Feasible(b, es) && Stays(b, es, i)
    decreases es
  {
    if es == [] then 0
    else
      R.StepKeeps(b, es[0]);
      Count(es[0].Pubrel? && es[0].i == i && es[0].id == id && open)
      + Completed(R.Step(b, es[0]), es[1..], i, id, OpenAfter(b, es[0], i, id, open))
  }

  /** Exactly once in the whole broker: over every run a connection lives through, what it publishes with an id goes to
      fan-out as the receiver of section 4.3.3 delivers it if and only if every event meets the guard; and then fan-outs and
      completed handshakes balance, but for what is open at either end. */
  lemma {:induction false} ExactlyOnceOverRuns(b: Broker, es: seq<R.Event>, i: nat, id: u16)
    requires Inv(b) && R.Feasible(b, es) && Stays(b, es, i) && i < |b.clients| && id != 0
    ensures OnceInRun(b, es, i, id, InReceipt(b.clients[i].slots, id)) <==> GuardedRun(b, es, i, id)
    ensures i < |R.Run(b, es).clients|
    ensures GuardedRun(b, es, i, id) ==>
              FannedOut(b, es, i, id) + Count(InReceipt(b.clients[i].slots, id)) ==
              Completed(b, es, i, id, InReceipt(b.clients[i].slots, id)) + Count(InReceipt(R.Run(b, es).clients[i].slots, id))
    decreases es
  {
    hide Inv, R.Possible, R.Step, InReceipt, GuardAt, FansOut, PubReceived, R.Shapes, Lives;
    if es != [] {
      R.StepKeeps(b, es[0]);
      EventOnce(b, es[0], i, id);
      ExactlyOnceOverRuns(R.Step(b, es[0]), es[1..], i, id);
    }
  }
}
