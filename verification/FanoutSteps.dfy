/** One PUBLISH from the parser to the last queue: who is delivered to, and what it does to the books. */
module FanoutSteps {
  import opened Common
  import opened Bags
  import opened Inflight
  import opened Shared
  import opened Egress
  import opened Conservation
  import opened Ceremony
  import opened Qos2
  import opened Broker
  import opened BrokerInv
  import opened SlotSteps
  import opened CloseSteps

  ghost predicate AllShaped(cs: seq<Client>) {
    forall j :: 0 <= j < |cs| ==> Shaped(cs[j].slots)
  }

  /** Delivery to one subscriber during fan-out. */
  lemma DeliverKeeps(b: Broker, i: nat, m: u32, qos: byte)
    requires PoolInv(b, multiset{m}) && i < |b.clients| && b.clients[i].state == Active && Shaped(b.clients[i].slots)
    ensures var r := Put(b, i, StartDelivery(At(b, i), m, qos).site);
            PoolInv(r, multiset{m}) && SameIds(b, r)
  {
    hide Sound, Refs, Owners, Holders, OwnersBut, StartDelivery, Consistent;
    FitAt(b, i, multiset{m});
    CountsFit(b, multiset{m}, m);
    OwnersSplit(b.clients, i, b.clients[i]);
    assert multiset{m} + OwnersBut(b.clients, i) + Refs(b.clients[i]) == multiset{m} + Owners(b.clients);
    StartDeliveryKeeps(At(b, i), m, qos, multiset{m} + OwnersBut(b.clients, i), Holders(b.clients));
    LiftKeeps(b, i, StartDelivery(At(b, i), m, qos).site, multiset{m});
  }

  lemma SameIdsTrans(a: Broker, b: Broker, c: Broker)
    requires SameIds(a, b) && SameIds(b, c)
    ensures SameIds(a, c)
  {
    forall i | 0 <= i < |a.clients|
      ensures SameId(a.clients[i], c.clients[i])
    {
      assert SameId(a.clients[i], b.clients[i]) && SameId(b.clients[i], c.clients[i]);
    }
    forall m | 0 <= m < |a.p.msgs|
      ensures c.p.msgs[m].(refCount := 0) == a.p.msgs[m].(refCount := 0)
    {
      assert b.p.msgs[m].(refCount := 0) == a.p.msgs[m].(refCount := 0);
    }
  }

  /** Slots this node starts a delivery for, from slot i on. */
  ghost predicate Wants(cs: seq<Client>, node: map<int, byte>, j: int) {
    0 <= j < |cs| && j in node && cs[j].state == Active && cs[j].generation == node[j]
  }

  ghost predicate FanOk(f: Fan) {
    Distinct(f.started) && forall k :: 0 <= k < |f.started| ==> f.started[k] in f.sent
  }

  lemma {:induction false} FanNodeKeeps(f: Fan, m: u32, qos: byte, node: map<int, byte>, i: nat)
    requires AllShaped(f.b.clients) && PoolInv(f.b, multiset{m}) && FanOk(f)
    ensures var g := FanNode(f, m, qos, node, i);
            && PoolInv(g.b, multiset{m}) && SameIds(f.b, g.b) && FanOk(g) && AllShaped(g.b.clients)
            && (forall j :: j in g.sent <==> j in f.sent || (i <= j < |f.b.clients| && j in node))
            && (forall j :: j in g.started <==> j in f.started || (j !in f.sent && i <= j && Wants(f.b.clients, node, j)))
    decreases |f.b.clients| - i
  {
    hide PoolInv, Shaped, StartDelivery;
    if i < |f.b.clients| {
      if i !in node || i in f.sent {
        FanNodeKeeps(f, m, qos, node, i + 1);
      } else if f.b.clients[i].state == Active && f.b.clients[i].generation == node[i] {
        DeliveryShape(At(f.b, i), m, qos);
        DeliverKeeps(f.b, i, m, qos);
        var b' := Put(f.b, i, StartDelivery(At(f.b, i), m, qos).site);
        var f' := Fan(b', f.sent + {i}, f.started + [i]);
        FanNodeKeeps(f', m, qos, node, i + 1);
        SameIdsTrans(f.b, b', FanNode(f', m, qos, node, i + 1).b);
        SameWants(f.b, b', node);
      } else {
        FanNodeKeeps(f.(sent := f.sent + {i}), m, qos, node, i + 1);
      }
    }
  }

  lemma SameWants(b: Broker, r: Broker, node: map<int, byte>)
    requires SameIds(b, r)
    ensures forall j :: Wants(r.clients, node, j) <==> Wants(b.clients, node, j)
  {
    forall j | 0 <= j < |b.clients|
      ensures SameId(b.clients[j], r.clients[j])
    {
    }
  }

  /** Some matched node has a subscription of this slot. */
  ghost predicate Subscribed(matches: seq<map<int, byte>>, j: int) {
    exists k :: 0 <= k < |matches| && j in matches[k]
  }

  ghost predicate IsActive(cs: seq<Client>, j: int) {
    0 <= j < |cs| && cs[j].state == Active
  }

  /** However many nodes match, each active subscribed slot is delivered to once and no other slot is. */
  lemma {:induction false} FanOutKeeps(f: Fan, m: u32, qos: byte, matches: seq<map<int, byte>>)
    requires AllShaped(f.b.clients) && PoolInv(f.b, multiset{m}) && FanOk(f)
    requires forall k :: 0 <= k < |matches| ==> NodeOk(f.b.clients, matches[k])
    ensures var g := FanOut(f, m, qos, matches);
            && PoolInv(g.b, multiset{m}) && SameIds(f.b, g.b) && FanOk(g) && AllShaped(g.b.clients)
            && (forall j :: j in g.started <==>
                  j in f.started || (j !in f.sent && Subscribed(matches, j) && IsActive(f.b.clients, j)))
    decreases |matches|
  {
    hide PoolInv, Shaped, FanNode;
    if matches == [] {
    } else {
      FanShape(f, m, qos, matches[0], 0);
      FanNodeKeeps(f, m, qos, matches[0], 0);
      var g := FanNode(f, m, qos, matches[0], 0);
      SameNodes(f.b, g.b, matches[1..], matches);
      FanOutKeeps(g, m, qos, matches[1..]);
      SameIdsTrans(f.b, g.b, FanOut(g, m, qos, matches[1..]).b);
      FanOutUnion(f.b.clients, g.b.clients, matches);
    }
  }

  lemma SameNodes(b: Broker, r: Broker, rest: seq<map<int, byte>>, matches: seq<map<int, byte>>)
    requires SameIds(b, r) && matches != [] && rest == matches[1..]
    requires forall k :: 0 <= k < |matches| ==> NodeOk(b.clients, matches[k])
    ensures forall k :: 0 <= k < |rest| ==> NodeOk(r.clients, rest[k])
  {
    forall k | 0 <= k < |rest|
      ensures NodeOk(r.clients, rest[k])
    {
      assert NodeOk(b.clients, matches[k + 1]);
      assert forall i :: 0 <= i < |b.clients| ==> SameId(b.clients[i], r.clients[i]);
    }
  }

  lemma FanOutUnion(cs: seq<Client>, ds: seq<Client>, matches: seq<map<int, byte>>)
    requires matches != []
    ensures forall j :: Subscribed(matches, j) <==> j in matches[0] || Subscribed(matches[1..], j)
  {
    forall j
      ensures Subscribed(matches, j) <==> j in matches[0] || Subscribed(matches[1..], j)
    {
      if Subscribed(matches[1..], j) {
        var k :| 0 <= k < |matches[1..]| && j in matches[1..][k];
        assert j in matches[k + 1];
      }
      if k :| 0 <= k < |matches| && j in matches[k] {
        if k > 0 { assert j in matches[1..][k - 1]; }
      }
    }
  }

  // ---- taking the message over ----

  /** The stolen buffer becomes the message's, the fresh one the publisher's; the base reference is its only owner. */
  lemma AdoptSound(p: Pools, m: u32, msg: Msg, owners: multiset<int>, Y: multiset<int>)
    requires Sound(p, owners, Y + multiset{msg.bufIdx})
    requires p.bufFree != [] && p.msgFree != [] && m == p.msgFree[|p.msgFree| - 1] && msg.refCount == 1
    ensures m < |p.msgs| && p.bufFree[|p.bufFree| - 1] != INVALID
    ensures var q := p.(msgs := p.msgs[m := msg], msgFree := p.msgFree[..|p.msgFree| - 1], bufFree := p.bufFree[..|p.bufFree| - 1]);
            Sound(q, multiset{m} + owners, Y + multiset{p.bufFree[|p.bufFree| - 1]})
  {
    hide Counted, Partitioned;
    LastFreeIsReal(p, owners);
    var top := |p.bufFree| - 1;
    TakeBuf(p, owners, Y + multiset{msg.bufIdx});
    var p1 := p.(bufFree := p.bufFree[..top]);
    AdoptCounted(p1, owners, m, msg);
    assert Y + multiset{msg.bufIdx} + multiset{p.bufFree[top]} == Y + multiset{p.bufFree[top]} + multiset{msg.bufIdx};
    AdoptPartitioned(p1, m, msg, Y + multiset{p.bufFree[top]}, owners);
  }

  lemma LastFreeIsReal(p: Pools, owners: multiset<int>)
    requires Counted(p, owners) && p.msgFree != []
    ensures p.msgFree[|p.msgFree| - 1] < |p.msgs|
  {
  }

  function Filled(p: Pools, m: u32, msg: Msg): Pools
    requires m < |p.msgs| && p.msgFree != []
  {
    p.(msgs := p.msgs[m := msg], msgFree := p.msgFree[..|p.msgFree| - 1])
  }

  lemma AdoptPartitioned(p: Pools, m: u32, msg: Msg, Y: multiset<int>, owners: multiset<int>)
    requires Partitioned(p, Y + multiset{msg.bufIdx}) && Counted(p, owners)
    requires p.msgFree != [] && m == p.msgFree[|p.msgFree| - 1] && m < |p.msgs|
    ensures Partitioned(Filled(p, m, msg), Y)
  {
    hide Partitioned;
    var q := Filled(p, m, msg);
    assert p.msgFree == q.msgFree + [m];
    assert m !in q.msgFree && forall k :: k != m ==> (k in q.msgFree <==> k in p.msgFree);
    assert LiveBags(q) == LiveBags(p)[m := multiset{msg.bufIdx}];
    SumUpdate(LiveBags(p), m, multiset{msg.bufIdx});
    assert LiveBag(p, m) == multiset{};
    assert LiveBufs(q) == LiveBufs(p) + multiset{msg.bufIdx};
    GainLive(p, q, msg.bufIdx, Y);
  }

  lemma GainLive(p: Pools, q: Pools, x: u32, Y: multiset<int>)
    requires Partitioned(p, Y + multiset{x}) && q.bufs == p.bufs && q.bufFree == p.bufFree
    requires LiveBufs(q) == LiveBufs(p) + multiset{x}
    ensures Partitioned(q, Y)
  {
    hide LiveBufs;
    assert LiveBufs(q) + Y == LiveBufs(p) + (Y + multiset{x});
    assert Bag(q.bufFree) + (LiveBufs(q) + Y) == Bag(q.bufFree) + LiveBufs(q) + Y;
    assert Bag(p.bufFree) + (LiveBufs(p) + (Y + multiset{x})) == Bag(p.bufFree) + LiveBufs(p) + (Y + multiset{x});
  }

  lemma AdoptCounted(p: Pools, owners: multiset<int>, m: u32, msg: Msg)
    requires Counted(p, owners) && p.msgFree != [] && m == p.msgFree[|p.msgFree| - 1] && msg.refCount == 1
    requires m < |p.msgs|
    ensures Counted(Filled(p, m, msg), multiset{m} + owners)
  {
    var q := Filled(p, m, msg);
    assert p.msgFree == q.msgFree + [m];
    assert m !in q.msgFree;
    assert m !in owners;
    assert forall k :: k != m ==> (k in q.msgFree <==> k in p.msgFree);
  }

  lemma AdoptKeepsPools(b: Broker, i: nat, m: u32, pub: Incoming)
    requires PoolInv(b, multiset{}) && i < |b.clients| && Connected(b.clients[i])
    requires b.p.bufFree != [] && b.p.msgFree != [] && m == b.p.msgFree[|b.p.msgFree| - 1] && m < |b.p.msgs|
    ensures PoolInv(Adopt(b, i, m, pub), multiset{m})
    ensures Adopt(b, i, m, pub).p.msgs[m].bufIdx == b.clients[i].recvBuf
  {
    hide Sound, Owners, Holders, OwnersBut, HoldersBut, ClientOk, Refs;
    var c := b.clients[i];
    var r := Adopt(b, i, m, pub);
    var d := r.clients[i];
    SoundAt(b, i);
    var Y := HoldersBut(b.clients, i) + One(c.orphan);
    assert HoldersBut(b.clients, i) + Held(c) == Y + multiset{c.recvBuf};
    AdoptSound(b.p, m, r.p.msgs[m], OwnersBut(b.clients, i) + Refs(c), Y);
    BufSwapped(b, c, d);
    OwnersSplit(b.clients, i, d);
    HoldersSplit(b.clients, i, d);
    assert HoldersBut(b.clients, i) + Held(d) == Y + multiset{d.recvBuf};
  }

  lemma BufSwapped(b: Broker, c: Client, d: Client)
    requires ClientWell(b, c) && Connected(c) && d == c.(recvBuf := d.recvBuf) && d.recvBuf != INVALID
    ensures ClientWell(b, d) && Refs(d) == Refs(c)
  {
  }

  /** The base reference is released like any other: the stolen buffer is the message's buffer. */
  lemma DropBaseIsRelease(p: Pools, m: u32, owners: multiset<int>, Y: multiset<int>)
    requires Sound(p, owners + multiset{m}, Y)
    ensures Live(p, m) && DropBase(p, m, p.msgs[m].bufIdx) == Release(p, m)
  {
    assert m in owners + multiset{m};
    assert Live(p, m);
    LiveBufIsReal(p, m, Y);
  }

  /** Tracking an incoming id moves no reference. */
  lemma TrackingKeeps(b: Broker, c: Client, qos: byte, id: u16, now: int)
    requires ClientWell(b, c) && Connected(c)
    ensures var v := PubReceived(c.slots, qos, id, now).slots;
            ClientWell(b, c.(slots := v)) && Refs(c.(slots := v)) == Refs(c)
  {
    hide Consistent, QueueRefs, EntryRefs, Track, Find, LoadWireLen;
    TrackKeeps(c.slots, id, now + INFLIGHT_TIMEOUT_MS);
    var t := Track(c.slots, id, now + INFLIGHT_TIMEOUT_MS);
    if t.slots != c.slots {
      EntryUpdate(c.slots.hot, t.slot, t.slots.hot[t.slot]);
      assert t.slots.hot == c.slots.hot[t.slot := t.slots.hot[t.slot]];
      assert EntryRef(t.slots.hot[t.slot]) == multiset{} && EntryRef(c.slots.hot[t.slot]) == multiset{};
      Cancel(EntryRefs(t.slots.hot), EntryRefs(c.slots.hot), multiset{});
    }
  }

  // ---- the whole PUBLISH ----

  /** A packet is only processed for an active client between two receives. */
  ghost predicate PublishPossible(b: Broker, i: nat, matches: seq<map<int, byte>>) {
    && i < |b.clients| && b.clients[i].state == Active && !b.clients[i].recvPending
    && forall k :: 0 <= k < |matches| ==> matches[k] in b.nodes
  }

  lemma InvShapes(b: Broker)
    requires PoolInv(b, multiset{})
    ensures AllShaped(b.clients)
    ensures forall k :: 0 <= k < |b.p.msgFree| ==> b.p.msgFree[k] < |b.p.msgs|
  {
    forall j | 0 <= j < |b.clients| ensures Shaped(b.clients[j].slots) {
      assert ClientWell(b, b.clients[j]);
    }
  }

  /** The ceremony half of the MQTT_PUBLISH case. */
  function Noted(b: Broker, i: nat, pub: Incoming): Broker
    requires i < |b.clients| && Shaped(b.clients[i].slots)
  {
    b.(clients := b.clients[i := b.clients[i].(slots := PubReceived(b.clients[i].slots, pub.qos, pub.packetId, b.p.now).slots)])
  }

  lemma NotedKeeps(b: Broker, i: nat, pub: Incoming)
    requires Inv(b) && i < |b.clients| && Connected(b.clients[i]) && Shaped(b.clients[i].slots)
    ensures Inv(Noted(b, i, pub)) && SameIds(b, Noted(b, i, pub))
  {
    hide Sound, ClientWell, Refs, Held, SlotInv, SubsInv, RecvInv, Owners, Holders, OwnersBut, HoldersBut, PubReceived;
    var r := Noted(b, i, pub);
    var d := r.clients[i];
    SoundAt(b, i);
    TrackingKeeps(b, b.clients[i], pub.qos, pub.packetId, b.p.now);
    SlotsNotHeld(b.clients[i], d);
    ReplaceClient(b, r, i, d);
    SameIdsKeep(b, r);
  }

  lemma SlotsNotHeld(c: Client, d: Client)
    requires d == c.(slots := d.slots)
    ensures Held(d) == Held(c)
  {
  }

  /** Resetting the record of a message on the free stack. */
  lemma DropMessageKeeps(b: Broker, m: u32)
    requires Inv(b) && m < |b.p.msgs| && m in b.p.msgFree
    ensures Inv(DropMessage(b, m))
  {
    hide SlotInv, SubsInv, RecvInv, ClientsWell, Owners, Holders;
    var q := DropMessage(b, m).p;
    assert LiveBags(q) == LiveBags(b.p);
    assert forall k :: Live(q, k) <==> Live(b.p, k);
    OnlyPools(b, DropMessage(b, m));
  }

  lemma OnlyPools(b: Broker, r: Broker)
    requires r == b.(p := r.p)
    ensures (exists chain :: SlotInv(b, chain)) ==> exists chain :: SlotInv(r, chain)
    ensures SubsInv(b) ==> SubsInv(r)
    ensures RecvInv(b) ==> RecvInv(r)
    ensures ClientsWell(b) ==> ClientsWell(r)
  {
    hide FreeList, Census, SlotRecvs, NodeOk, ClientOk;
    if chain :| SlotInv(b, chain) {
      assert SlotInv(r, chain);
    }
  }

  /** Stealing the publisher's buffer keeps everything, with the base reference as a new owner. */
  lemma AdoptKeeps(b: Broker, i: nat, m: u32, pub: Incoming)
    requires Inv(b) && i < |b.clients| && b.clients[i].state == Active && !b.clients[i].recvPending
    requires b.p.bufFree != [] && b.p.msgFree != [] && m == b.p.msgFree[|b.p.msgFree| - 1] && m < |b.p.msgs|
    ensures var r := Adopt(b, i, m, pub);
            PoolInv(r, multiset{m}) && (exists chain :: SlotInv(r, chain)) && SubsInv(r) && RecvInv(r)
  {
    hide PoolInv, SlotInv, SubsInv, SlotRecvs;
    AdoptKeepsPools(b, i, m, pub);
    var r := Adopt(b, i, m, pub);
    var d := r.clients[i];
    SameMeta(b, r, i, d);
    IdleRecvs(b.recvs, i, b.clients[i], d);
    OtherRecvs(b, r, i, d);
  }

  lemma IdleRecvs(recvs: set<Recv>, i: nat, c: Client, d: Client)
    requires SlotRecvs(recvs, i, c) && !c.recvPending && d == c.(recvBuf := d.recvBuf)
    ensures SlotRecvs(recvs, i, d)
  {
    assert forall r :: !Current(c, r) && !Current(d, r);
  }

  /** Whether the packet gets as far as fan-out. */
  predicate FansOut(b: Broker, i: nat, pub: Incoming)
    requires i < |b.clients| && Shaped(b.clients[i].slots)
  {
    PubReceived(b.clients[i].slots, pub.qos, pub.packetId, b.p.now).forward && b.p.msgFree != [] && b.p.bufFree != []
  }

  lemma DropBaseKeeps(b: Broker, m: u32, stolen: u32)
    requires PoolInv(b, multiset{m}) && m < |b.p.msgs| && b.p.msgs[m].bufIdx == stolen
    requires (exists chain :: SlotInv(b, chain)) && SubsInv(b) && RecvInv(b)
    ensures Inv(b.(p := DropBase(b.p, m, stolen)))
  {
    hide Sound, SlotInv, SubsInv, RecvInv, ClientsWell, DropBase;
    var owners := Owners(b.clients);
    assert multiset{m} + owners == owners + multiset{m};
    DropBaseIsRelease(b.p, m, owners, Holders(b.clients));
    ReleaseKeeps(b.p, m, owners, Holders(b.clients));
    assert multiset{} + owners == owners;
    OnlyPools(b, b.(p := DropBase(b.p, m, stolen)));
  }

  /** One PUBLISH keeps every invariant and starts delivery exactly once for each active slot with a matching
      subscription, and for no other slot, however many wildcards overlap. */
  lemma PublishKeeps(b: Broker, i: nat, pub: Incoming, matches: seq<map<int, byte>>)
    requires Inv(b) && PublishPossible(b, i, matches)
    ensures AllShaped(b.clients) && forall k :: 0 <= k < |b.p.msgFree| ==> b.p.msgFree[k] < |b.p.msgs|
    ensures var (r, started) := PublishReceived(b, i, pub, matches);
            && Inv(r)
            && Distinct(started)
            && forall j :: j in started <==> FansOut(b, i, pub) && Subscribed(matches, j) && IsActive(b.clients, j)
  {
    hide PoolInv, SlotInv, SubsInv, RecvInv, PubReceived, FanOut, Adopt, DropBase;
    InvShapes(b);
    NotedKeeps(b, i, pub);
    var b1 := Noted(b, i, pub);
    if PubReceived(b.clients[i].slots, pub.qos, pub.packetId, b.p.now).forward && b.p.msgFree != [] {
      var m := b.p.msgFree[|b.p.msgFree| - 1];
      if b.p.bufFree == [] {
        DropMessageKeeps(b1, m);
      } else {
        PublishFansOut(b, b1, i, m, pub, matches);
      }
    }
  }

  lemma PublishFansOut(b: Broker, b1: Broker, i: nat, m: u32, pub: Incoming, matches: seq<map<int, byte>>)
    requires Inv(b1) && SameIds(b, b1) && PublishPossible(b, i, matches) && b1.p == b.p
    requires b.p.bufFree != [] && b.p.msgFree != [] && m == b.p.msgFree[|b.p.msgFree| - 1] && m < |b.p.msgs|
    ensures AllShaped(Adopt(b1, i, m, pub).clients)
    ensures var f := FanOut(Fan(Adopt(b1, i, m, pub), {}, []), m, pub.qos, matches);
            && Inv(f.b.(p := DropBase(f.b.p, m, b.clients[i].recvBuf)))
            && Distinct(f.started)
            && forall j :: j in f.started <==> Subscribed(matches, j) && IsActive(b.clients, j)
  {
    hide PoolInv, SlotInv, SlotRecvs, FanOut, DropBase, Subscribed;
    assert forall j :: 0 <= j < |b.clients| ==> SameId(b.clients[j], b1.clients[j]);
    AdoptKeeps(b1, i, m, pub);
    var b2 := Adopt(b1, i, m, pub);
    AdoptShapes(b2, m);
    forall k | 0 <= k < |matches| ensures NodeOk(b2.clients, matches[k]) {
      assert matches[k] in b2.nodes;
    }
    FanOutKeeps(Fan(b2, {}, []), m, pub.qos, matches);
    var f := FanOut(Fan(b2, {}, []), m, pub.qos, matches);
    SameIdsKeep(b2, f.b);
    assert f.b.p.msgs[m].(refCount := 0) == b2.p.msgs[m].(refCount := 0);
    DropBaseKeeps(f.b, m, b.clients[i].recvBuf);
  }

  lemma AdoptShapes(r: Broker, m: u32)
    requires PoolInv(r, multiset{m})
    ensures AllShaped(r.clients)
  {
    forall j | 0 <= j < |r.clients| ensures Shaped(r.clients[j].slots) {
      assert ClientWell(r, r.clients[j]);
    }
  }

  /** Under the condition a delivery starts for each active slot subscribed at a matched node, once, and otherwise for none. */
  ghost predicate StartsFor(b: Broker, matches: seq<map<int, byte>>, started: seq<int>, condition: bool) {
    Distinct(started) && forall j :: j in started <==> condition && Subscribed(matches, j) && IsActive(b.clients, j)
  }

  /** QoS 0 and 1: a delivery starts for each active slot subscribed at a matched node, exactly once and for no other, if and
      only if the message pool and the buffer pool both have something left; with one of them empty none starts. */
  lemma LowQosFanOut(b: Broker, i: nat, pub: Incoming, matches: seq<map<int, byte>>)
    requires PublishPossible(b, i, matches) && pub.qos <= 1
    requires Inv(b)
    ensures AllShaped(b.clients) && forall k :: 0 <= k < |b.p.msgFree| ==> b.p.msgFree[k] < |b.p.msgs|
    ensures StartsFor(b, matches, PublishReceived(b, i, pub, matches).1, b.p.msgFree != [] && b.p.bufFree != [])
  {
    hide Inv, PublishReceived, PubReceived;
    PublishKeeps(b, i, pub, matches);
    WithoutReceipt(b.clients[i].slots, pub.qos, pub.packetId, b.p.now);
  }

  /** QoS 2 besides needs room in the publisher's table and no receipt in plain sight. */
  lemma HighQosFanOut(b: Broker, i: nat, pub: Incoming, matches: seq<map<int, byte>>)
    requires PublishPossible(b, i, matches) && pub.qos == 2 && pub.packetId != 0
    requires Inv(b)
    ensures AllShaped(b.clients) && forall k :: 0 <= k < |b.p.msgFree| ==> b.p.msgFree[k] < |b.p.msgs|
    ensures var v := b.clients[i].slots;
            StartsFor(b, matches, PublishReceived(b, i, pub, matches).1,
                      && b.p.msgFree != [] && b.p.bufFree != []
                      && v.count < |v.hot| && (InReceipt(v, pub.packetId) ==> Shadowed(v, pub.packetId)))
  {
    hide Inv, PublishReceived, PubReceived, InReceipt, Shadowed;
    PublishKeeps(b, i, pub, matches);
    TableAt(b, i);
    PublishExact(b.clients[i].slots, pub.packetId, b.p.now);
  }

  lemma TableAt(b: Broker, i: nat)
    requires Inv(b) && i < |b.clients|
    ensures Consistent(b.clients[i].slots)
  {
    hide SlotInv, SubsInv, RecvInv, Sound;
    assert ClientWell(b, b.clients[i]);
  }
}
