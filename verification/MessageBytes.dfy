/** The bytes of a shared message: what the publisher sent is what every subscriber is sent, and no event changes
    the record or the buffer of a live message. */
module MessageBytes {
  import opened Common
  import opened Inflight
  import opened Packet
  import Publish
  import opened Shared
  import opened Egress
  import opened Flush
  import opened Ceremony
  import opened Conservation
  import opened Broker
  import opened BrokerInv
  import opened SlotSteps
  import opened FanoutSteps
  import opened Runs

  /** pub are the offsets of a parsed PUBLISH whose variable header starts at position at of the receive buffer. */
  predicate Describes(pub: Incoming, at: nat, m0: Publish.Message) {
    && pub.qos == m0.qos && pub.packetId == m0.packetId && pub.retain == m0.retain
    && pub.topicOff == at + 2 && pub.topicLen == |m0.topic|
    && pub.payloadOff == at + 2 + |m0.topic| + (if m0.qos > 0 then 2 else 0) && pub.payloadLen == |m0.payload|
  }

  /** The parsed offsets lie in the publisher's receive buffer. */
  predicate InBuffer(b: Broker, i: nat, pub: Incoming) {
    && i < |b.clients| && b.clients[i].recvBuf < |b.p.bufs|
    && var n := |b.p.bufs[b.clients[i].recvBuf]|;
       n <= BUF_SIZE && pub.topicOff + pub.topicLen <= n && pub.payloadOff + pub.payloadLen <= n
  }

  /** Sixteen bits are enough for a topic offset in a receive buffer of 64 KiB. */
  lemma OffsetsFit(buf: seq<byte>, at: nat, m0: Publish.Message)
    requires |buf| <= 65536 && Publish.Valid(m0) && at + |Publish.Body(m0)| <= |buf|
    ensures at + 2 < 0x1_0000 && at + 2 + |m0.topic| + 2 < 0x1_0000_0000 && |m0.payload| < 0x1_0000_0000
  {
  }

  lemma SliceOfSlice(s: seq<byte>, at: nat, n: nat, from: nat, len: nat)
    requires at + n <= |s| && from + len <= n
    ensures s[at..at + n][from..from + len] == s[at + from..at + from + len]
  {
    var l, r := s[at..at + n][from..from + len], s[at + from..at + from + len];
    forall k | 0 <= k < |l| ensures l[k] == r[k] {
    }
  }

  /** The stolen buffer gives back the publisher's topic and payload. */
  lemma AdoptedBytes(b: Broker, i: nat, m: u32, pub: Incoming, at: nat, m0: Publish.Message)
    requires i < |b.clients| && b.p.bufFree != [] && b.p.msgFree != [] && m < |b.p.msgs| && b.clients[i].recvBuf < |b.p.bufs|
    requires |m0.topic| < 0x1_0000 && Describes(pub, at, m0)
    requires var buf := b.p.bufs[b.clients[i].recvBuf]; var body := Publish.Body(m0);
             at + |body| <= |buf| && buf[at..at + |body|] == body
    ensures var p := Adopt(b, i, m, pub).p;
            Placed(p, m) && Topic(p, m) == m0.topic && Payload(p, m) == m0.payload
  {
    var buf := b.p.bufs[b.clients[i].recvBuf];
    var body := Publish.Body(m0);
    var from := BodyParts(m0);
    SliceOfSlice(buf, at, |body|, 2, |m0.topic|);
    SliceOfSlice(buf, at, |body|, from, |m0.payload|);
  }

  /** Where topic and payload lie in the body. */
  lemma BodyParts(m0: Publish.Message) returns (from: nat)
    requires |m0.topic| < 0x1_0000
    ensures from == 2 + |m0.topic| + (if m0.qos > 0 then 2 else 0) && from + |m0.payload| == |Publish.Body(m0)|
    ensures Publish.Body(m0)[2..2 + |m0.topic|] == m0.topic && Publish.Body(m0)[from..from + |m0.payload|] == m0.payload
  {
    var pid := if m0.qos > 0 then Publish.Bytes16(m0.packetId) else [];
    var head := Publish.Bytes16(|m0.topic|);
    from := 2 + |m0.topic| + |pid|;
    assert Publish.Body(m0) == head + m0.topic + pid + m0.payload;
    assert (head + m0.topic + pid + m0.payload)[from..] == m0.payload;
    assert (head + m0.topic + pid + m0.payload)[2..2 + |m0.topic|] == m0.topic;
  }

  /** A segment for the adopted message puts the publisher's topic and payload on the wire, as the PUBLISH that the
      encoder would write, and the wire length stored with it is its true length. */
  lemma ForwardedVerbatim(b: Broker, i: nat, m: u32, pub: Incoming, at: nat, m0: Publish.Message, c: Client, id: u16, qos: byte, dup: bool)
    requires i < |b.clients| && b.p.bufFree != [] && b.p.msgFree != [] && m < |b.p.msgs| && b.clients[i].recvBuf < |b.p.bufs|
    requires |m0.topic| < 0x1_0000 && Describes(pub, at, m0) && |Publish.Body(m0)| < VBI_LIMIT - 2
    requires var buf := b.p.bufs[b.clients[i].recvBuf]; var body := Publish.Body(m0);
             at + |body| <= |buf| && buf[at..at + |body|] == body
    ensures var p := Adopt(b, i, m, pub).p; var seg := PublishSeg(Site(p, c), m, id, qos, dup);
            && Wire(p, seg) == Publish.Encoded(Publish.Message(m0.retain, qos, dup, m0.topic, id, m0.payload))
            && LoadWireLen(seg) == |Wire(p, seg)|
  {
    hide Wire, Vbi, LoadWireLen, Publish.Encoded, Topic, Payload, StoreWireLen;
    AdoptedBytes(b, i, m, pub, at, m0);
    var p := Adopt(b, i, m, pub).p;
    var seg := PublishSeg(Site(p, c), m, id, qos, dup);
    WireIsEncodedPublish(p, seg);
    VbiSize(Publish.Remaining(p.msgs[m].topicLen, p.msgs[m].payloadLen, qos));
    WireLenRoundTrip(seg, WireLen(p.msgs[m], qos), [0, 0, 0, 0]);
  }

  // ---- live messages stay as they are ----

  lemma {:induction false} DrainStore(s: Site)
    ensures SameStore(s.p, Drain(s).p)
    decreases |s.c.queue|
  {
    hide SameStore, Release;
    if s.c.queue == [] {
      SameStoreSelf(s.p);
    } else {
      ReleaseStore(s.p, s.c.queue[0].msgIdx);
      SameStoreSelf(s.p);
      DrainStore(DiscardHead(s));
      SameStoreTrans(s.p, DiscardHead(s).p, Drain(s).p);
    }
  }

  lemma {:induction false} ReleaseEntriesStore(p: Pools, hot: seq<Hot>, count: int, i: nat, found: nat)
    ensures SameStore(p, ReleaseEntries(p, hot, count, i, found))
    decreases |hot| - i
  {
    hide SameStore, Release;
    SameStoreSelf(p);
    if i < |hot| && found < count {
      if hot[i].state == Free {
        ReleaseEntriesStore(p, hot, count, i + 1, found);
      } else {
        var q := if hot[i].direction == OUTGOING && hot[i].msgIdx != INVALID then Release(p, hot[i].msgIdx) else p;
        ReleaseStore(p, hot[i].msgIdx);
        ReleaseEntriesStore(q, hot, count, i + 1, found + 1);
        SameStoreTrans(p, q, ReleaseEntries(q, hot, count, i + 1, found + 1));
      }
    }
  }

  lemma CloseStore(b: Broker, fd: int)
    ensures SameStore(b.p, CloseDone(b, fd).p)
  {
    hide Drain, ReleaseEntries;
    var i := SlotOf(b, fd);
    if !(i < 0 || !Connected(b.clients[i]) || b.clients[i].fd != fd) {
      var s := At(b, i);
      DrainStore(s);
      ReleaseEntriesStore(Drain(s).p, Drain(s).c.slots.hot, Drain(s).c.slots.count, 0, 0);
      SameStoreTrans(b.p, Drain(s).p, Disconnect(s).p);
    }
  }

  /** Steps on one client. */
  lemma AckStore(b: Broker, i: nat, id: u16)
    requires Inv(b) && i < |b.clients| && b.clients[i].state == Active && Shaped(b.clients[i].slots)
    ensures SameStore(b.p, PubackReceived(At(b, i), id).p) && SameStore(b.p, PubrecReceived(At(b, i), id).p)
  {
    hide Inv, Sound, ClientOk, Refs, SameStore, PubackReceived, PubrecReceived, Fit, Keeps;
    ActiveFits(b, i);
    var X, Y := multiset{} + OwnersBut(b.clients, i), Holders(b.clients);
    PubackKeeps(At(b, i), id, X, Y);
    KeepsStore(At(b, i), PubackReceived(At(b, i), id), X, Y);
    PubrecKeeps(At(b, i), id, X, Y);
    KeepsStore(At(b, i), PubrecReceived(At(b, i), id), X, Y);
  }

  lemma CqeStore(b: Broker, i: nat, generation: byte, fd: int, res: int)
    requires Inv(b) && i < |b.clients| && Shaped(b.clients[i].slots) && res < 0x8000_0000
    requires b.clients[i].generation == generation && b.clients[i].fd == fd && b.clients[i].queue != [] ==> b.clients[i].writing
    ensures SameStore(b.p, EgressCqe(At(b, i), generation, fd, res).site.p)
  {
    hide PoolInv, SlotInv, SubsInv, RecvInv, Sound, ClientOk, Refs, SameStore, EgressCqe, Fit, Keeps;
    if Connected(b.clients[i]) {
      ActiveFits(b, i);
      var X, Y := multiset{} + OwnersBut(b.clients, i), Holders(b.clients);
      EgressCqeKeeps(At(b, i), generation, fd, res, X, Y);
      KeepsStore(At(b, i), EgressCqe(At(b, i), generation, fd, res).site, X, Y);
    } else {
      IdleClient(b, i);
      SameStoreSelf(b.p);
    }
  }

  lemma FlushStore(b: Broker, i: nat)
    requires Inv(b) && i < |b.clients| && Shaped(b.clients[i].slots)
    ensures SameStore(b.p, EgressFlush(At(b, i)).site.p) && SameStore(b.p, SweepClient(At(b, i)).p)
  {
    hide PoolInv, SlotInv, SubsInv, RecvInv, Sound, ClientOk, Refs, SameStore, EgressFlush, SweepClient, Fit, Keeps;
    if Connected(b.clients[i]) {
      ActiveFits(b, i);
      var X, Y := multiset{} + OwnersBut(b.clients, i), Holders(b.clients);
      FlushKeeps(At(b, i), X, Y);
      KeepsStore(At(b, i), EgressFlush(At(b, i)).site, X, Y);
      SweepClientKeeps(At(b, i), X, Y);
      KeepsStore(At(b, i), SweepClient(At(b, i)), X, Y);
    } else {
      IdleClient(b, i);
      SameStoreSelf(b.p);
    }
  }

  lemma KeepsStore(s: Site, r: Site, X: multiset<int>, Y: multiset<int>)
    requires Keeps(s, r, X, Y)
    ensures SameStore(s.p, r.p)
  {
  }

  lemma DropBaseStore(p: Pools, m: u32, stolen: u32)
    ensures SameStore(p, DropBase(p, m, stolen))
  {
  }

  lemma PublishStore(b: Broker, i: nat, pub: Incoming, matches: seq<map<int, byte>>, m: nat)
    requires Inv(b) && Shapes(b) && PublishPossible(b, i, matches) && Live(b.p, m)
    ensures Untouched(b.p, PublishReceived(b, i, pub, matches).0.p, m)
  {
    hide PoolInv, SlotInv, SubsInv, RecvInv, Qos2.PubReceived, FanOut, Release, Shaped;
    NotedKeeps(b, i, pub);
    var b1 := Noted(b, i, pub);
    if Qos2.PubReceived(b.clients[i].slots, pub.qos, pub.packetId, b.p.now).forward && b.p.msgFree != [] && b.p.bufFree != [] {
      var n := b.p.msgFree[|b.p.msgFree| - 1];
      assert n in b.p.msgFree;
      AdoptKeeps(b1, i, n, pub);
      var b2 := Adopt(b1, i, n, pub);
      AdoptShapes(b2, n);
      NodesStillOk(b, b2, i, matches);
      FanOutKeeps(Fan(b2, {}, []), n, pub.qos, matches);
      var f := FanOut(Fan(b2, {}, []), n, pub.qos, matches);
      assert f.b.p.msgs[m].(refCount := 0) == b2.p.msgs[m].(refCount := 0);
    }
  }

  lemma NodesStillOk(b: Broker, r: Broker, i: nat, matches: seq<map<int, byte>>)
    requires SubsInv(r) && r.nodes == b.nodes && PublishPossible(b, i, matches)
    ensures forall k :: 0 <= k < |matches| ==> NodeOk(r.clients, matches[k])
  {
    forall k | 0 <= k < |matches| ensures NodeOk(r.clients, matches[k]) {
      assert matches[k] in r.nodes;
    }
  }

  /** No event changes the record or the bytes of a live message: not even the kernel's writes or the copies between receive buffers reach them. */
  lemma LiveMessageStays(b: Broker, e: Event, m: nat)
    requires Inv(b) && Shapes(b) && Possible(b, e) && Live(b.p, m)
    ensures Untouched(b.p, Step(b, e).p, m)
  {
    hide Inv, PublishPossible, AcceptPossible, PublishReceived, CloseDone, EgressFlush, SweepClient, EgressCqe, PubackReceived, PubrecReceived;
    match e
    case KernelWrites(r, data) => RecvTargetIsPrivate(b, r, m);
    case MoveBytes(i, data) => WindowIsPrivate(b, i, m);
    case Publish(i, pub, matches) => PublishStore(b, i, pub, matches, m);
    case CloseCqe(fd) => CloseStore(b, fd);
    case Puback(i, id) => AckStore(b, i, id);
    case Pubrec(i, id) => AckStore(b, i, id);
    case WritevCqe(i, generation, fd, res) => CqeStore(b, i, generation, fd, res);
    case RetryFlush(i) => FlushStore(b, i);
    case TimeoutSweep(i) => FlushStore(b, i);
    case _ =>
  }

  /** m is in use before every event of the run. */
  ghost predicate LiveThroughout(b: Broker, es: seq<Event>, m: nat)
    requires Inv(b) && Feasible(b, es)
    decreases es
  {
    es != [] ==> Live(b.p, m) && (StepKeeps(b, es[0]); LiveThroughout(Step(b, es[0]), es[1..], m))
  }

  /** Over any run a message keeps its topic and its payload for as long as it is referenced. */
  lemma {:induction false} LiveMessageStaysOverRuns(b: Broker, es: seq<Event>, m: nat)
    requires Inv(b) && Feasible(b, es) && LiveThroughout(b, es, m) && m < |b.p.msgs|
    ensures Untouched(b.p, Run(b, es).p, m)
    decreases es
  {
    hide Inv, Possible, Step;
    if es != [] {
      StepKeeps(b, es[0]);
      LiveMessageStays(b, es[0], m);
      LiveMessageStaysOverRuns(Step(b, es[0]), es[1..], m);
    }
  }
}
