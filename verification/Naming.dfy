/** What the queue and the table of one client name, step by step: nothing but what they named before and what is delivered,
    and a delivered message is owned as long as it is queued (src/broker/loop.h, src/broker/mqtt_fsm.h). */
module Naming {
  import opened Common
  import opened Bags
  import opened Inflight
  import opened Shared
  import opened Egress
  import opened Flush
  import opened Ceremony
  import Qos2
  import opened Conservation
  import Acks
  import opened Dangling
  import opened Broker
  import opened BrokerInv
  import opened FanoutSteps

  // ---- what a client can name ----

  /** All messages that the queue or an outgoing entry names are among M. */
  ghost predicate Within(c: Client, M: set<int>) {
    && (forall k :: 0 <= k < |c.queue| && c.queue[k].kind == SEG_PUBLISH ==> c.queue[k].msgIdx in M)
    && (forall t :: 0 <= t < |c.slots.hot| && Outgoing(c.slots.hot[t]) ==> c.slots.hot[t].msgIdx in M)
  }

  lemma {:induction false} CleanWithin(s: Site, M: set<int>)
    requires Within(s.c, M)
    ensures Within(PreClean(s).c, M)
    decreases |s.c.queue|
  {
    hide Release;
    if s.c.queue != [] && Unsendable(s.c.queue[0], s.c.generation) {
      CleanWithin(DiscardHead(s), M);
    }
  }

  lemma AllocWithin(p: Pools, c: Client, i: nat, t: Taken, M: set<int>)
    requires Within(c, M) && Shaped(c.slots) && i < |c.queue| && NeedsId(c.queue[i])
    requires t == Alloc(c.slots, c.queue[i].qos, c.queue[i].msgIdx, p.now + Qos2.INFLIGHT_TIMEOUT_MS)
    ensures Shaped(t.slots) && Within(Numbered(c, i, t), M)
  {
    hide Search, AssignId;
  }

  lemma {:induction false} GatherWithin(p: Pools, c: Client, i: nat, M: set<int>)
    requires Shaped(c.slots) && Within(c, M)
    ensures Within(Gather(p, c, i).c, M)
    decreases EGRESS_BATCH_MAX - i
  {
    hide Joins, NeedsId, Alloc, Within, Numbered;
    if i < EGRESS_BATCH_MAX && i < |c.queue| && Joins(p, c, i) {
      if NeedsId(c.queue[i]) {
        var t := Alloc(c.slots, c.queue[i].qos, c.queue[i].msgIdx, p.now + Qos2.INFLIGHT_TIMEOUT_MS);
        AllocWithin(p, c, i, t, M);
        if t.slot >= 0 {
          NumberedShape(c, i, t);
          GatherWithin(p, Numbered(c, i, t), i + 1, M);
        }
      } else {
        GatherWithin(p, c, i + 1, M);
      }
    }
  }

  lemma NumberedShape(c: Client, i: nat, t: Taken)
    requires i < |c.queue|
    ensures Numbered(c, i, t).slots == t.slots
  {
  }

  lemma FlushWithin(s: Site, M: set<int>)
    requires Shaped(s.c.slots) && Within(s.c, M)
    ensures Within(EgressFlush(s).site.c, M)
  {
    hide PreClean, Gather, Offer, Shaped;
    if !(s.c.writing || s.c.queue == [] || s.c.state != Active) {
      PreCleanShape(s);
      CleanWithin(s, M);
      if PreClean(s).c.queue != [] {
        GatherWithin(PreClean(s).p, PreClean(s).c, 0, M);
      }
    }
  }

  lemma KickWithin(s: Site, M: set<int>)
    requires Shaped(s.c.slots) && Within(s.c, M)
    ensures Within(Kick(s).c, M)
  {
    hide EgressFlush, Within, Shaped;
    FlushWithin(s, M);
  }

  lemma FinishWithin(s: Site, slot: nat, M: set<int>)
    requires slot < |s.c.slots.hot| && Within(s.c, M)
    ensures Within(Finish(s, slot).c, M)
  {
    hide Release;
  }

  lemma PubrelWithin(c: Client, id: u16, M: set<int>)
    requires Within(c, M)
    ensures Within(EnqueuePubrel(c, id), M) && EnqueuePubrel(c, id).slots == c.slots
  {
  }

  lemma AckWithin(s: Site, id: u16, M: set<int>)
    requires Shaped(s.c.slots) && Within(s.c, M)
    ensures Within(PubackReceived(s, id).c, M) && Within(PubrecReceived(s, id).c, M)
  {
    hide EgressFlush, Kick, Finish, EnqueuePubrel, Awaiting, Within;
    var d := Awaiting(s.c, id, WaitPuback);
    if d >= 0 {
      FinishWithin(s, d, M);
      KickWithin(Finish(s, d), M);
    }
    var e := Awaiting(s.c, id, WaitPubrec);
    if e >= 0 {
      FinishWithin(s, e, M);
      var f := Finish(s, e);
      PubrelWithin(f.c, id, M);
      KickWithin(f.(c := EnqueuePubrel(f.c, id)), M);
    } else {
      PubrelWithin(s.c, id, M);
      FlushWithin(s.(c := EnqueuePubrel(s.c, id)), M);
    }
  }

  lemma TimeoutWithin(s: Site, slot: nat, M: set<int>)
    requires Shaped(s.c.slots) && slot < |s.c.slots.hot| && Outgoing(s.c.slots.hot[slot]) && Within(s.c, M)
    ensures Within(Timeout(s, slot).c, M)
  {
    hide EgressFlush, Finish, WireLenBytes;
    var cold := s.c.slots.cold[slot];
    if cold.dupCount >= MAX_RETRIES {
      FinishWithin(s, slot, M);
    } else {
      var cold' := cold.(dupCount := cold.dupCount + 1, deadline := s.p.now + Qos2.INFLIGHT_TIMEOUT_MS);
      var s1 := s.(c := s.c.(slots := s.c.slots.(cold := s.c.slots.cold[slot := cold'])));
      if Full(s.c) {
        FinishWithin(s1, slot, M);
      } else {
        var hot := s.c.slots.hot[slot];
        FlushWithin(s1.(c := Push(s1.c, PublishSeg(s1, hot.msgIdx, hot.packetId, cold.qos, true))), M);
      }
    }
  }

  lemma {:induction false} SweepWithin(s: Site, i: nat, found: nat, M: set<int>)
    requires Shaped(s.c.slots) && Within(s.c, M)
    ensures Within(Sweep(s, i, found).c, M)
    decreases |s.c.slots.hot| - i
  {
    hide Timeout, Within;
    if i < |s.c.slots.hot| && found < s.c.slots.count {
      if s.c.slots.hot[i].state == Free {
        SweepWithin(s, i + 1, found, M);
      } else if Expired(s, i) {
        TimeoutWithin(s, i, M);
        SweepWithin(Timeout(s, i), i + 1, found + 1, M);
      } else {
        SweepWithin(s, i + 1, found + 1, M);
      }
    }
  }

  lemma SweepClientWithin(s: Site, M: set<int>)
    requires Shaped(s.c.slots) && Within(s.c, M)
    ensures Within(SweepClient(s).c, M)
  {
    hide Sweep, Within;
    SweepWithin(s, 0, 0, M);
  }

  lemma {:induction false} CompleteWithin(s: Site, batch: nat, n: nat, M: set<int>)
    requires Within(s.c, M)
    ensures Within(Complete(s, batch, n).c, M)
    decreases batch
  {
    hide Release, LoadWireLen;
    if batch != 0 && s.c.queue != [] && n != 0 {
      var rest := Sub32(SegLen(s.c.queue[0]), s.c.queue[0].cursor);
      if n >= rest {
        CompleteWithin(CompleteHead(s), batch - 1, n - rest, M);
      }
    }
  }

  lemma {:induction false} FailWithin(s: Site, batch: nat, M: set<int>)
    requires Shaped(s.c.slots) && Within(s.c, M)
    ensures Within(Fail(s, batch).c, M)
    decreases batch
  {
    hide Release, FindDirect;
    if batch != 0 && s.c.queue != [] {
      FailWithin(FailHead(s), batch - 1, M);
    }
  }

  lemma CqeWithin(s: Site, generation: byte, fd: int, res: int, M: set<int>)
    requires Shaped(s.c.slots) && Within(s.c, M)
    ensures Within(EgressCqe(s, generation, fd, res).site.c, M)
  {
    hide EgressFlush, Complete, Fail, Shaped;
    if s.c.generation == generation && s.c.fd == fd {
      var s1 := s.(c := s.c.(writing := false));
      if res > 0 { CompleteWithin(s1, s.c.batch, res, M); } else { FailWithin(s1, s.c.batch, M); }
      FlushWithin(Settle(s, res), M);
    }
  }

  lemma DeliveryWithin(s: Site, m: u32, qos: byte, M: set<int>)
    requires Shaped(s.c.slots) && Within(s.c, M) && m in M
    ensures Within(StartDelivery(s, m, qos).site.c, M)
  {
    hide EgressFlush, Ref, Release, WireLenBytes;
    var p := Ref(s.p, m);
    if !Full(s.c) {
      FlushWithin(Site(p, Push(s.c, PublishSeg(s.(p := p), m, 0, qos, false))), M);
    }
  }

  lemma {:induction false} FanNodeWithin(f: Fan, m: u32, qos: byte, node: map<int, byte>, j: nat, i: nat, M: set<int>)
    requires AllShaped(f.b.clients) && i < |f.b.clients| && Within(f.b.clients[i], M) && m in M
    ensures var g := FanNode(f, m, qos, node, j); i < |g.b.clients| && Within(g.b.clients[i], M)
    decreases |f.b.clients| - j
  {
    hide StartDelivery, Within, Shaped;
    if j < |f.b.clients| {
      if j !in node || j in f.sent {
        FanNodeWithin(f, m, qos, node, j + 1, i, M);
      } else if f.b.clients[j].state == Active && f.b.clients[j].generation == node[j] {
        DeliveryShape(At(f.b, j), m, qos);
        if i == j {
          DeliveryWithin(At(f.b, i), m, qos, M);
        }
        var b' := Put(f.b, j, StartDelivery(At(f.b, j), m, qos).site);
        FanNodeWithin(Fan(b', f.sent + {j}, f.started + [j]), m, qos, node, j + 1, i, M);
      } else {
        FanNodeWithin(f.(sent := f.sent + {j}), m, qos, node, j + 1, i, M);
      }
    }
  }

  lemma {:induction false} FanOutWithin(f: Fan, m: u32, qos: byte, matches: seq<map<int, byte>>, i: nat, M: set<int>)
    requires AllShaped(f.b.clients) && i < |f.b.clients| && Within(f.b.clients[i], M) && m in M
    ensures var g := FanOut(f, m, qos, matches); i < |g.b.clients| && Within(g.b.clients[i], M)
    decreases |matches|
  {
    hide FanNode, Within, Shaped;
    if matches != [] {
      FanShape(f, m, qos, matches[0], 0);
      FanNodeWithin(f, m, qos, matches[0], 0, i, M);
      FanOutWithin(FanNode(f, m, qos, matches[0], 0), m, qos, matches[1..], i, M);
    }
  }

  // ---- a delivered message is owned as long as it is queued ----

  ghost predicate OwnedIfNamed(c: Client, m: int) {
    (exists k :: 0 <= k < |c.queue| && Names(c.queue[k], m)) ==> m in Refs(c)
  }

  /** Every segment that names m owns it. */
  ghost predicate AllOwn(q: seq<Seg>, m: int) {
    forall k :: 0 <= k < |q| && Names(q[k], m) ==> Owns(q[k])
  }

  lemma OwnedIn(c: Client, k: nat)
    requires Connected(c) && k < |c.queue| && Owns(c.queue[k])
    ensures c.queue[k].msgIdx in Refs(c)
  {
    hide EntryRefs;
    SumUpdate(QueueBags(c.queue), k, multiset{});
    assert c.queue[k].msgIdx in SegRef(c.queue[k]);
  }

  lemma AllOwnOwned(c: Client, m: int)
    requires Connected(c) && AllOwn(c.queue, m)
    ensures OwnedIfNamed(c, m)
  {
    hide Refs;
    if k :| 0 <= k < |c.queue| && Names(c.queue[k], m) {
      OwnedIn(c, k);
    }
  }

  lemma {:induction false} CleanOwn(s: Site, m: int)
    requires AllOwn(s.c.queue, m)
    ensures AllOwn(PreClean(s).c.queue, m)
    decreases |s.c.queue|
  {
    hide Release, Owns;
    if s.c.queue != [] && Unsendable(s.c.queue[0], s.c.generation) {
      CleanOwn(DiscardHead(s), m);
    }
  }

  lemma {:induction false} GatherNames(p: Pools, c: Client, i: nat)
    requires Shaped(c.slots)
    ensures var q := Gather(p, c, i).c.queue;
            |q| == |c.queue| && forall k :: 0 <= k < |q| ==> q[k].msgIdx == c.queue[k].msgIdx && q[k].kind == c.queue[k].kind
    decreases EGRESS_BATCH_MAX - i
  {
    hide Joins, NeedsId, Alloc, Shaped;
    if i < EGRESS_BATCH_MAX && i < |c.queue| && Joins(p, c, i) {
      if NeedsId(c.queue[i]) {
        var t := Alloc(c.slots, c.queue[i].qos, c.queue[i].msgIdx, p.now + Qos2.INFLIGHT_TIMEOUT_MS);
        if t.slot >= 0 {
          Acks.AllocShape(c.slots, c.queue[i].qos, c.queue[i].msgIdx, p.now + Qos2.INFLIGHT_TIMEOUT_MS);
          GatherNames(p, Numbered(c, i, t), i + 1);
        }
      } else {
        GatherNames(p, c, i + 1);
      }
    }
  }

  lemma FlushOwned(s: Site, m: int, X: multiset<int>, Y: multiset<int>)
    requires Fit(s, X, Y) && AllOwn(s.c.queue, m)
    ensures OwnedIfNamed(EgressFlush(s).site.c, m)
  {
    hide Sound, Consistent, Resendable, Refs, PreClean, Gather, Offer, AllOwn, OwnedIfNamed;
    AllOwnOwned(s.c, m);
    if !(s.c.writing || s.c.queue == [] || s.c.state != Active) {
      PreCleanShape(s);
      PreCleanKeeps(s, X, Y);
      CleanOwn(s, m);
      var s1 := PreClean(s);
      AllOwnOwned(s1.c, m);
      if s1.c.queue != [] {
        FewMessages(s1.p, X + Refs(s1.c), Y);
        GatherKeeps(s1.p, s1.c, 0);
        GatherNames(s1.p, s1.c, 0);
        SameNames(s1.c, Gather(s1.p, s1.c, 0).c, m);
        WriteOnly(Gather(s1.p, s1.c, 0), m);
      }
    }
  }

  lemma WriteOnly(b: Batch, m: int)
    requires OwnedIfNamed(b.c, m) && b.n <= EGRESS_BATCH_MAX
    ensures OwnedIfNamed(b.c.(writing := true, batch := b.n), m)
  {
    hide QueueRefs, EntryRefs;
  }

  lemma SameNames(c: Client, d: Client, m: int)
    requires OwnedIfNamed(c, m) && Refs(d) == Refs(c) && |d.queue| == |c.queue|
    requires forall k :: 0 <= k < |d.queue| ==> d.queue[k].msgIdx == c.queue[k].msgIdx && d.queue[k].kind == c.queue[k].kind
    ensures OwnedIfNamed(d, m)
  {
    hide Refs;
    if k :| 0 <= k < |d.queue| && Names(d.queue[k], m) {
      assert Names(c.queue[k], m);
    }
  }

  /** After a delivery to a client that did not name the message, the client owns it if it names it. */
  lemma DeliveryOwned(s: Site, m: u32, qos: byte, X: multiset<int>, Y: multiset<int>)
    requires Fit(s, X, Y) && m in X && (X + Refs(s.c))[m] + 1 < 0x1_0000_0000
    requires forall k :: 0 <= k < |s.c.queue| ==> !Names(s.c.queue[k], m)
    ensures OwnedIfNamed(StartDelivery(s, m, qos).site.c, m)
  {
    hide Sound, Consistent, Resendable, Refs, EgressFlush, LoadWireLen, OwnedIfNamed, WireLenBytes;
    RefKeeps(s.p, m, X + Refs(s.c), Y);
    var p := Ref(s.p, m);
    RefShape(s.p, m, X + Refs(s.c), Y);
    AllOwnOwned(s.c, m);
    if !Full(s.c) {
      var seg := PublishSeg(s.(p := p), m, 0, qos, false);
      PushOk(s.c, seg);
      assert X + Refs(s.c) + multiset{m} == X + Refs(Push(s.c, seg));
      FlushOwned(Site(p, Push(s.c, seg)), m, X, Y);
    }
  }

  /** During fan-out: client i owns the message if it names it, and does not name it before its turn. */
  ghost predicate Turned(f: Fan, m: int, i: nat) {
    && i < |f.b.clients| && OwnedIfNamed(f.b.clients[i], m)
    && (i !in f.sent ==> forall k :: 0 <= k < |f.b.clients[i].queue| ==> !Names(f.b.clients[i].queue[k], m))
  }

  lemma DeliverTurned(f: Fan, m: u32, qos: byte, j: nat, i: nat)
    requires AllShaped(f.b.clients) && Turned(f, m, i) && j < |f.b.clients| && f.b.clients[j].state == Active && j !in f.sent
    requires PoolInv(f.b, multiset{m})
    ensures var b' := Put(f.b, j, StartDelivery(At(f.b, j), m, qos).site);
            PoolInv(b', multiset{m}) && Turned(Fan(b', f.sent + {j}, f.started + [j]), m, i)
  {
    hide PoolInv, StartDelivery, OwnedIfNamed, Shaped, Fit, Refs, OwnersBut, Holders;
    DeliverKeeps(f.b, j, m, qos);
    if i == j {
      FitAt(f.b, i, multiset{m});
      CountsFit(f.b, multiset{m}, m);
      OwnersSplit(f.b.clients, i, f.b.clients[i]);
      assert multiset{m} + OwnersBut(f.b.clients, i) + Refs(f.b.clients[i]) == multiset{m} + Owners(f.b.clients);
      DeliveryOwned(At(f.b, i), m, qos, multiset{m} + OwnersBut(f.b.clients, i), Holders(f.b.clients));
    }
  }

  lemma {:induction false} FanNodeTurned(f: Fan, m: u32, qos: byte, node: map<int, byte>, j: nat, i: nat)
    requires AllShaped(f.b.clients) && Turned(f, m, i) && PoolInv(f.b, multiset{m})
    ensures var g := FanNode(f, m, qos, node, j); Turned(g, m, i) && PoolInv(g.b, multiset{m})
    decreases |f.b.clients| - j
  {
    hide PoolInv, StartDelivery, OwnedIfNamed, Shaped, Names;
    if j < |f.b.clients| {
      if j !in node || j in f.sent {
        FanNodeTurned(f, m, qos, node, j + 1, i);
      } else if f.b.clients[j].state == Active && f.b.clients[j].generation == node[j] {
        DeliveryShape(At(f.b, j), m, qos);
        DeliverTurned(f, m, qos, j, i);
        var b' := Put(f.b, j, StartDelivery(At(f.b, j), m, qos).site);
        FanNodeTurned(Fan(b', f.sent + {j}, f.started + [j]), m, qos, node, j + 1, i);
      } else {
        FanNodeTurned(f.(sent := f.sent + {j}), m, qos, node, j + 1, i);
      }
    }
  }

  lemma {:induction false} FanOutTurned(f: Fan, m: u32, qos: byte, matches: seq<map<int, byte>>, i: nat)
    requires AllShaped(f.b.clients) && Turned(f, m, i) && PoolInv(f.b, multiset{m})
    ensures Turned(FanOut(f, m, qos, matches), m, i)
    decreases |matches|
  {
    hide PoolInv, FanNode, Turned, Shaped;
    if matches != [] {
      FanShape(f, m, qos, matches[0], 0);
      FanNodeTurned(f, m, qos, matches[0], 0, i);
      FanOutTurned(FanNode(f, m, qos, matches[0], 0), m, qos, matches[1..], i);
    }
  }
}
