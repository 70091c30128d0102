/** The egress stream of one connection inside the whole broker: every event seen by the connection of slot i, and what
    the kernel has accepted for it over any run. */
module BrokerStream {
  import opened Common
  import opened Inflight
  import opened Shared
  import opened Egress
  import opened Flush
  import opened Ceremony
  import Qos2
  import Packet
  import P = Publish
  import opened Conservation
  import opened Stream
  import opened Dangling
  import opened Connection
  import opened ClientStream
  import opened Broker
  import opened BrokerInv
  import opened SlotSteps
  import opened FanoutSteps
  import R = Runs
  import opened MessageBytes

  // ---- what is asked of the events, and what they bring ----

  /** The completion of the write in flight of slot i. */
  predicate Completes(b: Broker, e: R.Event, i: nat)
    requires i < |b.clients|
  {
    var c := b.clients[i];
    e.WritevCqe? && e.i == i && c.generation == e.generation && c.fd == e.fd && c.queue != []
  }

  /** A dangling segment of the queue reads from buffer x. */
  ghost predicate ReadsFreed(p: Pools, q: seq<Seg>, x: int) {
    exists k :: 0 <= k < |q| && Dangles(p, q[k]) && q[k].msgIdx < |p.msgs| && p.msgs[q[k].msgIdx].bufIdx == x
  }

  /** A segment of the queue names the message slot that this PUBLISH takes from the free stack. */
  ghost predicate NamesTaken(b: Broker, j: nat, pub: Incoming, q: seq<Seg>) {
    && j < |b.clients| && Shaped(b.clients[j].slots) && b.p.msgFree != []
    && Qos2.PubReceived(b.clients[j].slots, pub.qos, pub.packetId, b.p.now).forward
    && exists k :: 0 <= k < |q| && Names(q[k], b.p.msgFree[|b.p.msgFree| - 1])
  }

  /** No dangling segment of the queue reads from the buffer that is overwritten or names the message slot that is used
      again, a parsed packet lies in its buffer, completions are tolerable, and the connection is not closed. */
  ghost predicate Guard(b: Broker, e: R.Event, i: nat)
    requires i < |b.clients|
  {
    match e
    case Publish(j, pub, _) => !NamesTaken(b, j, pub, b.clients[i].queue) && InBuffer(b, j, pub)
    case KernelWrites(r, _) => !ReadsFreed(b.p, b.clients[i].queue, r.buf)
    case MoveBytes(j, _) => j < |b.clients| ==> !ReadsFreed(b.p, b.clients[i].queue, b.clients[j].recvBuf)
    case WritevCqe(_, _, _, res) => Completes(b, e, i) ==> Tolerable(At(b, i), res)
    case CloseCqe(fd) => fd != b.clients[i].fd
    case _ => true
  }

  /** The bytes that the event reports as accepted. */
  ghost function Taken(b: Broker, e: R.Event, i: nat): seq<byte>
    requires i < |b.clients|
  {
    if Completes(b, e, i) && e.res > 0 then Take(Owed(b.p, InWrite(b.clients[i])), e.res) else []
  }

  /** The packets that it completes. */
  ghost function Finished(b: Broker, e: R.Event, i: nat): seq<seq<byte>>
    requires i < |b.clients|
  {
    if Completes(b, e, i) && e.res > 0 then Packets(b.p, b.clients[i].queue, b.clients[i].batch, e.res) else []
  }

  /** The state of the connection after the event. */
  ghost predicate Follows(b: Broker, e: R.Event, i: nat, r: Broker, x: Conn, y: Conn)
    requires i < |b.clients|
  {
    && i < |r.clients| && y.s == At(r, i)
    && StreamInv(y) && x.log <= y.log && Connected(y.s.c)
    && y.accepted == x.accepted + Taken(b, e, i) && y.packets == x.packets + Finished(b, e, i)
  }

  ghost predicate Starts(b: Broker, i: nat, x: Conn) {
    i < |b.clients| && Connected(b.clients[i]) && x.s == At(b, i) && StreamInv(x)
  }

  lemma Led(b: Broker, e: R.Event, i: nat, r: Broker, x: Conn, y: Conn)
    requires Starts(b, i, x) && Leads(x, y) && !Completes(b, e, i) && i < |r.clients| && y.s == At(r, i)
    ensures Follows(b, e, i, r, x, y)
  {
    hide StreamInv;
  }

  // ---- events that the connection does not notice ----

  ghost predicate Apart(b: Broker, r: Broker, i: nat) {
    && i < |b.clients| && i < |r.clients| && SameStore(b.p, r.p)
    && Unnoticed(b.clients[i], r.clients[i]) && FewerEntries(b.clients[i].slots, r.clients[i].slots) && Connected(r.clients[i])
  }

  lemma QuietEvent(b: Broker, e: R.Event, i: nat, r: Broker, x: Conn) returns (y: Conn)
    requires Starts(b, i, x) && Apart(b, r, i) && !Completes(b, e, i)
    ensures Follows(b, e, i, r, x, y)
  {
    hide StreamInv, SameStore, Unnoticed, FewerEntries;
    Quiet(x, r.p, r.clients[i]);
    y := x.(s := At(r, i));
    Led(b, e, i, r, x, y);
  }

  /** An event of another slot. */
  lemma OtherSlot(b: Broker, i: nat, j: nat, s: Site)
    requires R.Shapes(b) && i < |b.clients| && j < |b.clients| && i != j && Connected(b.clients[i]) && SameStore(b.p, s.p)
    ensures Apart(b, Put(b, j, s), i)
  {
    hide SameStore;
  }

  lemma SameClient(b: Broker, i: nat, p: Pools)
    requires R.Shapes(b) && i < |b.clients| && Connected(b.clients[i]) && SameStore(b.p, p)
    ensures forall r: Broker :: r.p == p && i < |r.clients| && r.clients[i] == b.clients[i] ==> Apart(b, r, i)
  {
    hide SameStore;
  }

  lemma AcceptApart(b: Broker, fd: int, i: nat)
    requires Inv(b) && R.Shapes(b) && AcceptPossible(b, fd) && i < |b.clients| && Connected(b.clients[i])
    ensures Apart(b, AllocSlot(b, fd).b, i)
  {
    hide PoolInv, SubsInv, RecvInv, SlotInv;
    if AllocSlot(b, fd).slot >= 0 {
      var chain :| SlotInv(b, chain);
      AcceptKeepsSlots(b, fd, chain);
    }
  }

  lemma SubmitApart(b: Broker, i: nat, j: nat, full: bool)
    requires R.Shapes(b) && i < |b.clients| && Connected(b.clients[i]) && j < |b.clients| && Connected(b.clients[j])
    ensures Apart(b, SubmitRecv(b, j, full), i)
  {
    hide Shaped, SameStore;
    SameStoreSelf(b.p);
  }

  lemma RecvApart(b: Broker, i: nat, r: Recv, res: int)
    requires R.Shapes(b) && i < |b.clients| && Connected(b.clients[i]) && r.slot < |b.clients|
    ensures Apart(b, RecvDone(b, r, res), i)
  {
    hide Shaped, SameStore;
    SameStoreSelf(b.p);
    OrphanStore(b.p, b.clients[r.slot]);
  }

  lemma OrphanStore(p: Pools, c: Client)
    ensures SameStore(p, FreeOrphan(p, c).p) && FreeOrphan(p, c).c == c.(orphan := INVALID)
    ensures forall d: Client :: d.orphan == c.orphan ==> FreeOrphan(p, d).p == FreeOrphan(p, c).p
  {
  }

  lemma CloseApart(b: Broker, fd: int, i: nat)
    requires R.Shapes(b) && i < |b.clients| && Connected(b.clients[i])
    ensures Apart(b, SubmitClose(b, fd), i)
    ensures fd != b.clients[i].fd ==> Apart(b, CloseDone(b, fd), i)
  {
    hide Shaped, SameStore, Disconnect, FreeAll;
    SameStoreSelf(b.p);
    CloseStore(b, fd);
  }

  lemma PubrelApart(b: Broker, i: nat, j: nat, id: u16)
    requires R.Shapes(b) && i < |b.clients| && j < |b.clients| && Connected(b.clients[i])
    requires b.clients[j].slots.hot != []
    ensures Apart(b, b.(clients := b.clients[j := b.clients[j].(slots := Qos2.PubrelReceived(b.clients[j].slots, id).slots)]), i)
  {
    hide Find;
  }

  // ---- events that use buffers again ----

  /** Entries name live messages. */
  lemma EntriesLive(b: Broker, i: nat, s: nat)
    requires Inv(b) && i < |b.clients| && Connected(b.clients[i]) && s < |b.clients[i].slots.hot|
    requires Outgoing(b.clients[i].slots.hot[s]) && b.clients[i].slots.hot[s].msgIdx < |b.p.msgs|
    ensures Live(b.p, b.clients[i].slots.hot[s].msgIdx)
  {
    hide Inv, Refs, ClientOk, Partitioned, Owners, Holders, OwnersBut;
    R.ActiveFits(b, i);
    EntryOwns(At(b, i), s, multiset{} + OwnersBut(b.clients, i), Holders(b.clients));
  }

  lemma UntouchedDeliverable(p: Pools, q: Pools, m: u32)
    requires Deliverable(p, m) && Untouched(p, q, m)
    ensures Deliverable(q, m)
  {
    hide WireLen;
    SameMsgLength(p.msgs[m], q.msgs[m]);
  }

  /** Live messages stay, and so do the freed ones named in the queue: the connection does not notice. */
  lemma LoudLeads(b: Broker, i: nat, p: Pools, c: Client, x: Conn)
    requires Starts(b, i, x) && Unnoticed(b.clients[i], c) && FewerEntries(b.clients[i].slots, c.slots) && Connected(c)
    requires |p.msgs| == |b.p.msgs|
    requires forall m: nat :: Live(b.p, m) ==> Untouched(b.p, p, m)
    requires FreedStay(b.p, p, b.clients[i].queue)
    requires Inv(b)
    ensures Leads(x, x.(s := Site(p, c)))
  {
    hide Inv, SameStore, Deliverable, QueueReady, HeadSent, Logged, InFlight, CtrlResumed, Untouched, Shaped;
    var v := b.clients[i].slots;
    forall s | 0 <= s < |c.slots.hot| && Outgoing(c.slots.hot[s])
      ensures Deliverable(p, c.slots.hot[s].msgIdx)
    {
      EntryCan(x, s);
      DeliverableIs(b.p, v.hot[s].msgIdx);
      EntriesLive(b, i, s);
      UntouchedDeliverable(b.p, p, v.hot[s].msgIdx);
    }
    MoveKeeps(x, Elsewhere(p, c));
  }

  /** The freed messages that the queue names keep record and bytes. */
  ghost predicate FreedStay(p: Pools, q: Pools, segs: seq<Seg>) {
    forall k :: 0 <= k < |segs| && Dangles(p, segs[k]) && segs[k].msgIdx < |p.msgs| ==> Untouched(p, q, segs[k].msgIdx)
  }

  lemma DeliverableIs(p: Pools, m: u32)
    requires Deliverable(p, m)
    ensures m < |p.msgs|
  {
  }

  lemma OverwrittenStay(b: Broker, e: R.Event, i: nat)
    requires i < |b.clients| && (e.KernelWrites? || e.MoveBytes?) && R.Possible(b, e) && R.Shapes(b) && Guard(b, e, i)
    ensures FreedStay(b.p, R.Step(b, e).p, b.clients[i].queue)
  {
    hide Live;
  }

  lemma WriteEvent(b: Broker, e: R.Event, i: nat, x: Conn) returns (y: Conn)
    requires Starts(b, i, x) && (e.KernelWrites? || e.MoveBytes?) && R.Possible(b, e) && R.Shapes(b) && Guard(b, e, i) && Inv(b)
    ensures Follows(b, e, i, R.Step(b, e), x, y)
  {
    hide Inv, StreamInv, Untouched;
    var r := R.Step(b, e);
    OverwrittenStay(b, e, i);
    forall m: nat | Live(b.p, m)
      ensures Untouched(b.p, r.p, m)
    {
      R.StepKeeps(b, e);
      LiveMessageStays(b, e, m);
    }
    LoudLeads(b, i, r.p, r.clients[i], x);
    y := x.(s := At(r, i));
    Led(b, e, i, r, x, y);
  }

  // ---- PUBLISH ----

  lemma TrackFewer(v: Slots, qos: byte, id: u16, now: int)
    requires Shaped(v)
    ensures Shaped(Qos2.PubReceived(v, qos, id, now).slots) && FewerEntries(v, Qos2.PubReceived(v, qos, id, now).slots)
  {
    hide Find, TrackedAt, Search;
  }

  lemma {:induction false} FanNodeMove(f: Fan, m: u32, qos: byte, node: map<int, byte>, j: nat, i: nat, x: Conn) returns (y: Conn)
    requires AllShaped(f.b.clients) && Starts(f.b, i, x) && Deliverable(f.b.p, m)
    ensures var g := FanNode(f, m, qos, node, j);
            i < |g.b.clients| && Leads(x, y) && y.s == At(g.b, i) && SameStore(f.b.p, g.b.p)
    decreases |f.b.clients| - j
  {
    hide StreamInv, Deliverable, StartDelivery, Shaped, SameStore;
    SameStoreSelf(f.b.p);
    y := x;
    if j < |f.b.clients| {
      if j !in node || j in f.sent {
        y := FanNodeMove(f, m, qos, node, j + 1, i, x);
      } else if f.b.clients[j].state == Active && f.b.clients[j].generation == node[j] {
        DeliveryShape(At(f.b, j), m, qos);
        DeliveryStore(At(f.b, j), m, qos);
        var b' := Put(f.b, j, StartDelivery(At(f.b, j), m, qos).site);
        DeliverableKept(f.b.p, b'.p, m);
        var y1 := DeliverOne(f.b, j, m, qos, i, x);
        var f' := Fan(b', f.sent + {j}, f.started + [j]);
        y := FanNodeMove(f', m, qos, node, j + 1, i, y1);
        LeadsTrans(x, y1, y);
        SameStoreTrans(f.b.p, b'.p, FanNode(f', m, qos, node, j + 1).b.p);
      } else {
        y := FanNodeMove(f.(sent := f.sent + {j}), m, qos, node, j + 1, i, x);
      }
    }
  }

  lemma DeliverOne(b: Broker, j: nat, m: u32, qos: byte, i: nat, x: Conn) returns (y: Conn)
    requires AllShaped(b.clients) && Starts(b, i, x) && Deliverable(b.p, m) && j < |b.clients|
    requires SameStore(b.p, StartDelivery(At(b, j), m, qos).site.p)
    ensures Starts(Put(b, j, StartDelivery(At(b, j), m, qos).site), i, y) && Leads(x, y)
  {
    hide Deliverable, StartDelivery, Shaped, SameStore, QueueReady, EntriesDeliverable, HeadSent, Logged, InFlight, CtrlResumed;
    if j == i {
      y := DeliveryMove(x, m, qos);
    } else {
      Quiet(x, StartDelivery(At(b, j), m, qos).site.p, x.s.c);
      y := x.(s := Site(StartDelivery(At(b, j), m, qos).site.p, x.s.c));
    }
  }

  lemma {:induction false} FanOutMove(f: Fan, m: u32, qos: byte, matches: seq<map<int, byte>>, i: nat, x: Conn) returns (y: Conn)
    requires AllShaped(f.b.clients) && Starts(f.b, i, x) && Deliverable(f.b.p, m)
    ensures var g := FanOut(f, m, qos, matches);
            i < |g.b.clients| && Leads(x, y) && y.s == At(g.b, i) && SameStore(f.b.p, g.b.p)
    decreases |matches|
  {
    hide StreamInv, Deliverable, FanNode, Shaped, SameStore;
    SameStoreSelf(f.b.p);
    y := x;
    if matches != [] {
      FanShape(f, m, qos, matches[0], 0);
      var g := FanNode(f, m, qos, matches[0], 0);
      var y1 := FanNodeMove(f, m, qos, matches[0], 0, i, x);
      DeliverableKept(f.b.p, g.b.p, m);
      y := FanOutMove(g, m, qos, matches[1..], i, y1);
      LeadsTrans(x, y1, y);
      SameStoreTrans(f.b.p, g.b.p, FanOut(g, m, qos, matches[1..]).b.p);
    }
  }

  // ---- stores along one delivery, whatever the books say ----

  lemma {:induction false} PreCleanStore(s: Site)
    ensures SameStore(s.p, PreClean(s).p)
    decreases |s.c.queue|
  {
    hide SameStore, Release;
    SameStoreSelf(s.p);
    if s.c.queue != [] && Unsendable(s.c.queue[0], s.c.generation) {
      ReleaseStore(s.p, s.c.queue[0].msgIdx);
      PreCleanStore(DiscardHead(s));
      SameStoreTrans(s.p, DiscardHead(s).p, PreClean(s).p);
    }
  }

  lemma EgressFlushStore(s: Site)
    requires Shaped(s.c.slots)
    ensures SameStore(s.p, EgressFlush(s).site.p)
  {
    hide PreClean, Gather, Offer, Shaped;
    PreCleanShape(s);
    PreCleanStore(s);
  }

  lemma DeliveryStore(s: Site, m: u32, qos: byte)
    requires Shaped(s.c.slots)
    ensures SameStore(s.p, StartDelivery(s, m, qos).site.p)
  {
    hide SameStore, EgressFlush, Ref, Release, PublishSeg, Shaped;
    var p := Ref(s.p, m);
    RefStore(s.p, m);
    ReleaseStore(p, m);
    SameStoreTrans(s.p, p, Release(p, m));
    var s1 := Site(p, Push(s.c, PublishSeg(s.(p := p), m, 0, qos, false)));
    EgressFlushStore(s1);
    SameStoreTrans(s.p, p, EgressFlush(s1).site.p);
  }

  /** s is client i after the adoption of message m, its fan-out and the release of the base reference. */
  ghost predicate Spread(b: Broker, j: nat, m: u32, pub: Incoming, matches: seq<map<int, byte>>, i: nat, s: Site) {
    && j < |b.clients| && Shaped(b.clients[j].slots) && b.p.bufFree != [] && b.p.msgFree != [] && m < |b.p.msgs|
    && var r := Adopt(Noted(b, j, pub), j, m, pub);
       && AllShaped(r.clients)
       && var f := FanOut(Fan(r, {}, []), m, pub.qos, matches);
          i < |f.b.clients| && s == Site(DropBase(f.b.p, m, b.clients[j].recvBuf), f.b.clients[i])
  }

  /** Adoption and fan-out of a message that lies in its buffer. */
  lemma AdoptMove(b: Broker, j: nat, m: u32, pub: Incoming, matches: seq<map<int, byte>>, i: nat, x: Conn) returns (y: Conn)
    requires Starts(b, i, x) && InBuffer(b, j, pub) && forall k :: 0 <= k < |b.clients[i].queue| ==> !Names(b.clients[i].queue[k], m)
    requires Inv(b) && j < |b.clients| && AllShaped(b.clients)
    requires b.p.msgFree != [] && b.p.bufFree != [] && m == b.p.msgFree[|b.p.msgFree| - 1] && m < |b.p.msgs|
    ensures Spread(b, j, m, pub, matches, i, y.s) && Leads(x, y)
  {
    hide Inv, Shaped, StreamInv, Untouched, Deliverable, Names, FanOut, SameStore, InBuffer, DropBase, Qos2.PubReceived;
    var r := Adopt(Noted(b, j, pub), j, m, pub);
    AdoptLooks(b, j, m, pub, i);
    OthersStay(b.p, r.p, b.clients[i].queue, m);
    LoudLeads(b, i, r.p, r.clients[i], x);
    var y1 := x.(s := At(r, i));
    AdoptDeliverable(b, j, m, pub);
    assert Starts(r, i, y1);
    var y2 := FanOutMove(Fan(r, {}, []), m, pub.qos, matches, i, y1);
    var f := FanOut(Fan(r, {}, []), m, pub.qos, matches);
    DropBaseStore(f.b.p, m, b.clients[j].recvBuf);
    var p := DropBase(f.b.p, m, b.clients[j].recvBuf);
    LeadsTrans(x, y1, y2);
    y := LastQuiet(y2, p);
    LeadsTrans(x, y2, y);
  }

  lemma LastQuiet(x: Conn, p: Pools) returns (y: Conn)
    requires StreamInv(x) && SameStore(x.s.p, p)
    ensures Leads(x, y) && y == x.(s := Site(p, x.s.c))
  {
    hide SameStore, QueueReady, EntriesDeliverable, HeadSent, Logged, InFlight, CtrlResumed;
    Quiet(x, p, x.s.c);
    y := x.(s := Site(p, x.s.c));
  }

  /** What the adoption changes: nothing live, and of client i at most the incoming entries and the receive buffer. */
  lemma AdoptLooks(b: Broker, j: nat, m: u32, pub: Incoming, i: nat)
    requires i < |b.clients| && j < |b.clients| && AllShaped(b.clients) && Connected(b.clients[i])
    requires b.p.msgFree != [] && b.p.bufFree != [] && m == b.p.msgFree[|b.p.msgFree| - 1] && m < |b.p.msgs|
    ensures var r := Adopt(Noted(b, j, pub), j, m, pub);
            && AllShaped(r.clients) && |r.clients| == |b.clients| && |r.p.msgs| == |b.p.msgs|
            && Unnoticed(b.clients[i], r.clients[i]) && FewerEntries(b.clients[i].slots, r.clients[i].slots) && Connected(r.clients[i])
            && (forall n: nat :: Live(b.p, n) ==> Untouched(b.p, r.p, n))
            && forall n: nat :: n < |b.p.msgs| && n != m ==> Untouched(b.p, r.p, n)
  {
    hide Qos2.PubReceived, Shaped;
    TrackFewer(b.clients[j].slots, pub.qos, pub.packetId, b.p.now);
    assert m in b.p.msgFree;
  }

  lemma AdoptDeliverable(b: Broker, j: nat, m: u32, pub: Incoming)
    requires j < |b.clients| && Shaped(b.clients[j].slots) && InBuffer(b, j, pub)
    requires b.p.msgFree != [] && b.p.bufFree != [] && m < |b.p.msgs|
    ensures Deliverable(Adopt(Noted(b, j, pub), j, m, pub).p, m)
  {
    hide Qos2.PubReceived;
    ShortLength(Adopt(Noted(b, j, pub), j, m, pub).p.msgs[m]);
  }

  lemma ShortLength(m: Msg)
    requires m.payloadLen <= BUF_SIZE
    ensures WireLen(m, 1) < 0x1_0000_0000
  {
    Packet.VbiSize(P.Remaining(m.topicLen, m.payloadLen, 1));
  }

  lemma PublishEvent(b: Broker, e: R.Event, i: nat, x: Conn) returns (y: Conn)
    requires Starts(b, i, x) && e.Publish? && R.Possible(b, e) && R.Shapes(b) && Guard(b, e, i) && Inv(b)
    ensures Follows(b, e, i, R.Step(b, e), x, y)
  {
    hide Inv, StreamInv, Shaped, Names, FanOut, Adopt, DropBase, Qos2.PubReceived, InBuffer, SameStore, Untouched, Unnoticed, FewerEntries;
    var j, pub, matches := e.i, e.pub, e.matches;
    var r := R.Step(b, e);
    var b1 := Noted(b, j, pub);
    NotedLooks(b, j, pub, i);
    if !Qos2.PubReceived(b.clients[j].slots, pub.qos, pub.packetId, b.p.now).forward || b.p.msgFree == [] {
      y := QuietEvent(b, e, i, r, x);
    } else {
      var m := b.p.msgFree[|b.p.msgFree| - 1];
      if b.p.bufFree == [] {
        DropLooks(b, m);
        OthersStay(b.p, r.p, b.clients[i].queue, m);
        LoudLeads(b, i, r.p, r.clients[i], x);
        y := x.(s := At(r, i));
      } else {
        y := AdoptMove(b, j, m, pub, matches, i, x);
      }
      Led(b, e, i, r, x, y);
    }
  }

  lemma NotedLooks(b: Broker, j: nat, pub: Incoming, i: nat)
    requires i < |b.clients| && j < |b.clients| && AllShaped(b.clients) && Connected(b.clients[i])
    ensures Apart(b, Noted(b, j, pub), i)
  {
    hide Qos2.PubReceived, Shaped;
    TrackFewer(b.clients[j].slots, pub.qos, pub.packetId, b.p.now);
  }

  lemma DropLooks(b: Broker, m: u32)
    requires m < |b.p.msgs| && m in b.p.msgFree
    ensures |DropMessage(b, m).p.msgs| == |b.p.msgs|
    ensures forall n: nat :: Live(b.p, n) ==> Untouched(b.p, DropMessage(b, m).p, n)
    ensures forall n: nat :: n < |b.p.msgs| && n != m ==> Untouched(b.p, DropMessage(b, m).p, n)
  {
  }

  /** A queue that does not name the one message used again. */
  lemma OthersStay(p: Pools, q: Pools, segs: seq<Seg>, m: u32)
    requires forall n: nat :: n < |p.msgs| && n != m ==> Untouched(p, q, n)
    requires forall k :: 0 <= k < |segs| ==> !Names(segs[k], m)
    ensures FreedStay(p, q, segs)
  {
    hide Untouched, Live;
  }

  // ---- every event ----

  /** A completion for this slot, with the flush that follows it. */
  lemma CompletionEvent(b: Broker, e: R.Event, i: nat, x: Conn) returns (y: Conn)
    requires Starts(b, i, x) && Completes(b, e, i) && R.Possible(b, e) && R.Shapes(b) && Guard(b, e, i)
    ensures Follows(b, e, i, R.Step(b, e), x, y)
  {
    hide StreamInv, Settle, EgressFlush, Tolerable, Owed, Packets, InWrite, Shaped;
    var y1 := SettleMove(x, e.res);
    y := y1;
    if y1.s.c.queue != [] && y1.s.c.state == Active {
      y := FlushMove(y1);
    }
  }

  /** Every event keeps the account of every connection. */
  lemma EventStream(b: Broker, e: R.Event, i: nat, x: Conn) returns (y: Conn)
    requires Starts(b, i, x) && Guard(b, e, i) && Inv(b) && R.Possible(b, e)
    ensures R.Shapes(b) && Follows(b, e, i, R.Step(b, e), x, y)
  {
    hide Inv, StreamInv, AcceptPossible, PublishPossible, PublishReceived, CloseDone, EgressFlush, SweepClient, EgressCqe, PubackReceived,
         PubrecReceived, Follows, Apart, SameStore, AllocSlot, SubmitRecv, RecvDone, SubmitClose, Tolerable, Leads, Qos2.PubrelReceived;
    R.InvHasShapes(b);
    var r := R.Step(b, e);
    SameStoreSelf(b.p);
    match e
    case KernelWrites(_, _) => y := WriteEvent(b, e, i, x);
    case MoveBytes(_, _) => y := WriteEvent(b, e, i, x);
    case Publish(_, _, _) => y := PublishEvent(b, e, i, x);
    case Accept(fd) => AcceptApart(b, fd, i); y := QuietEvent(b, e, i, r, x);
    case StartRecv(j, full) => SubmitApart(b, i, j, full); y := QuietEvent(b, e, i, r, x);
    case RecvCqe(q, res) => RecvApart(b, i, q, res); y := QuietEvent(b, e, i, r, x);
    case StartClose(fd) => CloseApart(b, fd, i); y := QuietEvent(b, e, i, r, x);
    case CloseCqe(fd) => CloseApart(b, fd, i); y := QuietEvent(b, e, i, r, x);
    case Pubrel(j, id) => R.PubrelKeeps(b, j, id); PubrelApart(b, i, j, id); y := QuietEvent(b, e, i, r, x);
    case Connect(j, clean) => ConnectApart(b, i, j, clean); y := QuietEvent(b, e, i, r, x);
    case Tick(_, _) => TickApart(b, i, r); y := QuietEvent(b, e, i, r, x);
    case SubscribeAt(_, _) => SameClient(b, i, b.p); y := QuietEvent(b, e, i, r, x);
    case UnsubscribeAt(_, _) => SameClient(b, i, b.p); y := QuietEvent(b, e, i, r, x);
    case _ => y := SiteEvent(b, e, i, x);
  }

  lemma ConnectApart(b: Broker, i: nat, j: nat, clean: bool)
    requires R.Shapes(b) && i < |b.clients| && j < |b.clients| && Connected(b.clients[i])
    ensures Apart(b, b.(clients := b.clients[j := b.clients[j].(cleanSession := clean)]), i)
  {
  }

  lemma TickApart(b: Broker, i: nat, r: Broker)
    requires R.Shapes(b) && i < |b.clients| && Connected(b.clients[i]) && r == b.(p := b.p.(now := r.p.now, sqRoom := r.p.sqRoom))
    ensures Apart(b, r, i)
  {
  }

  /** Acknowledgements, completions, flushes and sweeps: on this slot a move, on another one nothing. */
  lemma SiteEvent(b: Broker, e: R.Event, i: nat, x: Conn) returns (y: Conn)
    requires e.Puback? || e.Pubrec? || e.WritevCqe? || e.RetryFlush? || e.TimeoutSweep?
    requires Starts(b, i, x) && Guard(b, e, i) && R.Possible(b, e) && R.Shapes(b) && Inv(b)
    ensures Follows(b, e, i, R.Step(b, e), x, y)
  {
    hide Inv, StreamInv, EgressFlush, SweepClient, EgressCqe, PubackReceived, PubrecReceived, Follows, Apart, SameStore, Tolerable, Leads, Shaped;
    var r := R.Step(b, e);
    if e.i != i {
      match e {
        case Puback(j, id) => AckStore(b, j, id); OtherSlot(b, i, j, PubackReceived(At(b, j), id));
        case Pubrec(j, id) => AckStore(b, j, id); OtherSlot(b, i, j, PubrecReceived(At(b, j), id));
        case WritevCqe(j, generation, fd, res) => CqeStore(b, j, generation, fd, res); OtherSlot(b, i, j, EgressCqe(At(b, j), generation, fd, res).site);
        case RetryFlush(j) => FlushStore(b, j); OtherSlot(b, i, j, EgressFlush(At(b, j)).site);
        case TimeoutSweep(j) => FlushStore(b, j); OtherSlot(b, i, j, SweepClient(At(b, j)));
      }
      y := QuietEvent(b, e, i, r, x);
    } else if Completes(b, e, i) {
      y := CompletionEvent(b, e, i, x);
    } else {
      match e {
        case Puback(j, id) => y := PubackMove(x, id);
        case Pubrec(j, id) => y := PubrecMove(x, id);
        case WritevCqe(j, generation, fd, res) => y := StrayCompletion(x, generation, fd, res);
        case RetryFlush(j) => y := FlushMove(x);
        case TimeoutSweep(j) => y := SweepClientMove(x);
      }
      Led(b, e, i, r, x, y);
    }
  }

  /** A completion that is not for the write in flight. */
  lemma StrayCompletion(x: Conn, generation: byte, fd: int, res: int) returns (y: Conn)
    requires StreamInv(x) && !(x.s.c.generation == generation && x.s.c.fd == fd && x.s.c.queue != [])
    ensures Leads(x, y) && y.s == EgressCqe(x.s, generation, fd, res).site
  {
    hide QueueReady, EntriesDeliverable, HeadSent, Logged, CtrlResumed, Complete, Fail, EgressFlush, Shaped;
    y := x;
  }

  // ---- over whole runs ----

  /** The packets that the event queued for slot i. */
  ghost function Queued(b: Broker, e: R.Event, i: nat): seq<Frame>
    requires R.Shapes(b) && R.Possible(b, e) && i < |b.clients| && i < |R.Step(b, e).clients|
  {
    var r := R.Step(b, e);
    FramesFrom(r.p, r.clients[i].queue, |b.clients[i].queue| - |Finished(b, e, i)|)
  }

  ghost function FramesFrom(p: Pools, q: seq<Seg>, k: int): seq<Frame> {
    if 0 <= k <= |q| then seq(|q| - k, j requires 0 <= j < |q| - k => FrameOf(p, q[k + j])) else []
  }

  lemma {:induction false} PacketsFew(p: Pools, q: seq<Seg>, batch: nat, n: nat)
    ensures |Packets(p, q, batch, n)| <= |q|
    decreases batch
  {
    hide Wire, SegLen;
    if !(batch == 0 || q == [] || n == 0 || n < SegLen(q[0]) - q[0].cursor) {
      PacketsFew(p, q[1..], batch - 1, n - (SegLen(q[0]) - q[0].cursor));
    }
  }

  lemma FinishedFew(b: Broker, e: R.Event, i: nat)
    requires i < |b.clients|
    ensures |Finished(b, e, i)| <= |b.clients[i].queue|
  {
    hide Packets;
    if Completes(b, e, i) && e.res > 0 {
      PacketsFew(b.p, b.clients[i].queue, b.clients[i].batch, e.res);
    }
  }

  /** The packets added to the log are those at the end of the queue. */
  lemma LogIsQueued(b: Broker, e: R.Event, i: nat, x: Conn, y: Conn)
    requires Starts(b, i, x) && R.Shapes(b) && R.Possible(b, e) && Follows(b, e, i, R.Step(b, e), x, y)
    ensures y.log == x.log + Queued(b, e, i)
  {
    hide QueueReady, EntriesDeliverable, HeadSent, InFlight, CtrlResumed, FrameOf, Finished, Taken, R.Step, Shaped, Encodes;
    FinishedFew(b, e, i);
    var k := |b.clients[i].queue| - |Finished(b, e, i)|;
    var added := y.log[|x.log|..];
    forall j | 0 <= j < |added| ensures added[j] == Queued(b, e, i)[j] {
      assert y.log[|y.packets| + (k + j)] == FrameOf(y.s.p, y.s.c.queue[k + j]);
    }
  }

  /** The guard holds before every event of the run. */
  ghost predicate Guarded(b: Broker, es: seq<R.Event>, i: nat)
    requires Inv(b) && R.Feasible(b, es)
    decreases es
  {
    es != [] ==>
      && i < |b.clients| && Guard(b, es[0], i)
      && (R.StepKeeps(b, es[0]); Guarded(R.Step(b, es[0]), es[1..], i))
  }

  /** Everything the kernel accepted for slot i over the run. */
  ghost function Accepted(b: Broker, es: seq<R.Event>, i: nat): seq<byte>
    requires Inv(b) && R.Feasible(b, es)
    decreases es
  {
    if es == [] || i >= |b.clients| then []
    else R.StepKeeps(b, es[0]); Taken(b, es[0], i) + Accepted(R.Step(b, es[0]), es[1..], i)
  }

  /** Everything queued for slot i over the run. */
  ghost function Sent(b: Broker, es: seq<R.Event>, i: nat): seq<Frame>
    requires Inv(b) && R.Feasible(b, es)
    decreases es
  {
    if es == [] || i >= |b.clients| then []
    else
      R.StepKeeps(b, es[0]);
      (if i < |R.Step(b, es[0]).clients| then Queued(b, es[0], i) else []) + Sent(R.Step(b, es[0]), es[1..], i)
  }

  lemma {:induction false} StreamOverRuns(b: Broker, es: seq<R.Event>, i: nat, x: Conn) returns (y: Conn)
    requires Inv(b) && R.Feasible(b, es) && Starts(b, i, x) && Guarded(b, es, i)
    ensures Starts(R.Run(b, es), i, y)
    ensures y.accepted == x.accepted + Accepted(b, es, i) && y.log == x.log + Sent(b, es, i)
    decreases es
  {
    hide Inv, StreamInv, Guard, R.Possible, R.Step, R.Shapes, Taken, Queued, Finished;
    if es == [] {
      y := x;
    } else {
      R.StepKeeps(b, es[0]);
      var r := R.Step(b, es[0]);
      var y1 := EventStream(b, es[0], i, x);
      LogIsQueued(b, es[0], i, x, y1);
      y := StreamOverRuns(r, es[1..], i, y1);
    }
  }

  /** A client that has just been accepted: nothing queued, nothing in flight. */
  ghost predicate Fresh(c: Client) {
    Connected(c) && Shaped(c.slots) && c.queue == [] && !c.writing && forall s :: 0 <= s < |c.slots.hot| ==> c.slots.hot[s].state == Free
  }

  lemma AcceptedIsFresh(b: Broker, fd: int)
    requires Inv(b) && AllocSlot(b, fd).slot >= 0
    ensures AllocSlot(b, fd).slot < |b.clients| && Fresh(AllocSlot(b, fd).b.clients[AllocSlot(b, fd).slot])
  {
    hide SlotInv, SubsInv, RecvInv, Sound, ClientWell;
  }

  lemma FreshStarts(b: Broker, i: nat)
    requires i < |b.clients| && Fresh(b.clients[i])
    ensures Starts(b, i, Conn(At(b, i), [], [], [], []))
  {
  }

  /** From its accept on, over any run of the whole broker: the bytes that the kernel accepted for a connection are exactly
      the encodings of the packets queued for it first, in the order they were queued, plus the first bytes of the head;
      and what was queued and is not completed is still in the queue, in order. */
  lemma ConnectionStream(b: Broker, es: seq<R.Event>, i: nat) returns (packets: seq<seq<byte>>)
    requires Inv(b) && R.Feasible(b, es) && i < |b.clients| && Fresh(b.clients[i]) && Guarded(b, es, i)
    ensures var r := R.Run(b, es); var log := Sent(b, es, i);
            && i < |r.clients|
            && Accepted(b, es, i) == Flatten(packets) + HeadSent(r.p, r.clients[i].queue)
            && |log| == |packets| + |r.clients[i].queue|
            && (forall j :: 0 <= j < |packets| ==> Encodes(log[j], packets[j]))
            && (forall j :: 0 <= j < |r.clients[i].queue| ==> FrameOf(r.p, r.clients[i].queue[j]) == log[|packets| + j])
            && (forall k :: 0 < k < |r.clients[i].queue| ==> r.clients[i].queue[k].cursor == 0)
  {
    hide Inv, R.Run, Accepted, Sent, HeadSent, FrameOf, Encodes, EntriesDeliverable, Shaped, InFlight, Ready, Guarded, R.Feasible, Flatten;
    var x := Conn(At(b, i), [], [], [], []);
    FreshStarts(b, i);
    var y := StreamOverRuns(b, es, i, x);
    packets := y.packets;
    assert [] + Accepted(b, es, i) == Accepted(b, es, i);
    assert [] + Sent(b, es, i) == Sent(b, es, i);
  }
}
