/** Whole runs of the broker: every event keeps every invariant, and what the invariants mean. */
module Runs {
  import opened Common
  import opened Bags
  import opened Inflight
  import opened Shared
  import opened Egress
  import opened Flush
  import opened Ceremony
  import opened Qos2
  import opened Conservation
  import opened Broker
  import opened BrokerInv
  import opened SlotSteps
  import opened CloseSteps
  import opened FanoutSteps

  /** One event of the loop. The kernel picks descriptors, results and the order of completions. */
  datatype Event =
    | Accept(fd: int)
    | StartRecv(i: nat, bufferFull: bool)
    | KernelWrites(r: Recv, data: seq<byte>)
    | MoveBytes(i: nat, data: seq<byte>)   // compaction, and the unread rest copied after a steal
    | RecvCqe(r: Recv, res: int)
    | Connect(i: nat, clean: bool)
    | Publish(i: nat, pub: Incoming, matches: seq<map<int, byte>>)
    | Pubrel(i: nat, id: u16)
    | Puback(i: nat, id: u16)
    | Pubrec(i: nat, id: u16)
    | SubscribeAt(i: nat, k: nat)
    | UnsubscribeAt(i: nat, k: nat)
    | WritevCqe(i: nat, generation: byte, fd: int, res: int)
    | RetryFlush(i: nat)
    | TimeoutSweep(i: nat)
    | StartClose(fd: int)
    | CloseCqe(fd: int)
    | Tick(now: int, room: nat)

  /** What the source's own guards and a well-behaved kernel allow, plus the two orphan conditions that
      CloseKeepsIff and RecvDoneKeepsIff show to be exact. */
  ghost predicate Possible(b: Broker, e: Event) {
    match e
    case Accept(fd) => AcceptPossible(b, fd)
    case StartRecv(i, _) => i < |b.clients| && b.clients[i].state == Active && !b.clients[i].recvPending
    case KernelWrites(r, data) => r in b.recvs && r.buf < |b.p.bufs| && |data| == |b.p.bufs[r.buf]|
    case MoveBytes(i, data) => i < |b.clients| && b.clients[i].recvBuf < |b.p.bufs| && |data| == |b.p.bufs[b.clients[i].recvBuf]|
    case RecvCqe(r, _) => r in b.recvs && r.slot < |b.clients| && !FreesForeignOrphan(b, r)
    case Publish(i, _, matches) => PublishPossible(b, i, matches)
    case WritevCqe(i, generation, fd, res) =>
      i < |b.clients| && res < 0x8000_0000
      && (b.clients[i].generation == generation && b.clients[i].fd == fd && b.clients[i].queue != [] ==> b.clients[i].writing)
    case RetryFlush(i) => i < |b.clients|
    case TimeoutSweep(i) => i < |b.clients|
    case StartClose(_) => true
    case CloseCqe(fd) => Closes(b, fd) ==> !OrphanTaken(b.clients[SlotOf(b, fd)])
    case Tick(_, _) => true
    case SubscribeAt(i, k) => i < |b.clients| && b.clients[i].state == Active && k < |b.nodes|
    case UnsubscribeAt(i, k) => i < |b.clients| && b.clients[i].state == Active && k < |b.nodes|
    case _ => e.i < |b.clients| && b.clients[e.i].state == Active
  }

  ghost function Step(b: Broker, e: Event): Broker
    requires Shapes(b) && Possible(b, e)
  {
    match e
    case Accept(fd) => AllocSlot(b, fd).b
    case StartRecv(i, full) => SubmitRecv(b, i, full)
    case KernelWrites(r, data) => b.(p := b.p.(bufs := b.p.bufs[r.buf := data]))
    case MoveBytes(i, data) => b.(p := b.p.(bufs := b.p.bufs[b.clients[i].recvBuf := data]))
    case RecvCqe(r, res) => RecvDone(b, r, res)
    case Connect(i, clean) => b.(clients := b.clients[i := b.clients[i].(cleanSession := clean)])
    case Publish(i, pub, matches) => PublishReceived(b, i, pub, matches).0
    case Pubrel(i, id) => b.(clients := b.clients[i := b.clients[i].(slots := PubrelReceived(b.clients[i].slots, id).slots)])
    case Puback(i, id) => Put(b, i, PubackReceived(At(b, i), id))
    case Pubrec(i, id) => Put(b, i, PubrecReceived(At(b, i), id))
    case SubscribeAt(i, k) => Subscribe(b, i, k)
    case UnsubscribeAt(i, k) => Unsubscribe(b, i, k)
    case WritevCqe(i, generation, fd, res) => Put(b, i, EgressCqe(At(b, i), generation, fd, res).site)
    case RetryFlush(i) => Put(b, i, EgressFlush(At(b, i)).site)
    case TimeoutSweep(i) => Put(b, i, SweepClient(At(b, i)))
    case StartClose(fd) => SubmitClose(b, fd)
    case CloseCqe(fd) => CloseDone(b, fd)
    case Tick(now, room) => b.(p := b.p.(now := now, sqRoom := room))
  }

  /** The array bounds that the transition functions rely on. */
  ghost predicate Shapes(b: Broker) {
    && AllShaped(b.clients)
    && forall k :: 0 <= k < |b.p.msgFree| ==> b.p.msgFree[k] < |b.p.msgs|
  }

  lemma InvHasShapes(b: Broker)
    requires Inv(b)
    ensures Shapes(b)
  {
    hide PoolInv, SlotInv, SubsInv, RecvInv;
    InvShapes(b);
  }

  // ---- every event keeps the invariant ----

  lemma PutSame(b: Broker, i: nat)
    requires i < |b.clients|
    ensures Put(b, i, At(b, i)) == b
  {
    assert b.clients[i := b.clients[i]] == b.clients;
  }

  lemma ActiveFits(b: Broker, i: nat)
    requires Inv(b) && i < |b.clients| && Connected(b.clients[i])
    ensures Fit(At(b, i), multiset{} + OwnersBut(b.clients, i), Holders(b.clients))
  {
    hide Sound, ClientOk, Refs, SlotInv, SubsInv, RecvInv;
    FitAt(b, i, multiset{});
  }

  lemma AckKeeps(b: Broker, i: nat, id: u16)
    requires Inv(b) && i < |b.clients| && b.clients[i].state == Active && Shaped(b.clients[i].slots)
    ensures Inv(Put(b, i, PubackReceived(At(b, i), id)))
    ensures Inv(Put(b, i, PubrecReceived(At(b, i), id)))
  {
    hide Inv, Sound, ClientOk, Refs, PubackReceived, PubrecReceived;
    ActiveFits(b, i);
    var X, Y := multiset{} + OwnersBut(b.clients, i), Holders(b.clients);
    PubackKeeps(At(b, i), id, X, Y);
    PubrecKeeps(At(b, i), id, X, Y);
    SiteStepKeeps(b, i, PubackReceived(At(b, i), id));
    SiteStepKeeps(b, i, PubrecReceived(At(b, i), id));
  }

  /** Flush, completion and sweep on a client that is not connected do nothing. */
  lemma IdleClient(b: Broker, i: nat)
    requires PoolInv(b, multiset{}) && i < |b.clients| && !Connected(b.clients[i]) && Shaped(b.clients[i].slots)
    ensures forall generation, fd, res :: EgressCqe(At(b, i), generation, fd, res).site == At(b, i)
    ensures EgressFlush(At(b, i)).site == At(b, i)
    ensures SweepClient(At(b, i)) == At(b, i)
  {
    hide Sound;
    assert ClientWell(b, b.clients[i]);
  }

  lemma EgressCqeStep(b: Broker, i: nat, generation: byte, fd: int, res: int)
    requires Inv(b) && i < |b.clients| && Shaped(b.clients[i].slots) && res < 0x8000_0000
    requires b.clients[i].generation == generation && b.clients[i].fd == fd && b.clients[i].queue != [] ==> b.clients[i].writing
    ensures Inv(Put(b, i, EgressCqe(At(b, i), generation, fd, res).site))
  {
    hide PoolInv, SlotInv, SubsInv, RecvInv, Sound, ClientOk, Refs, EgressCqe;
    if Connected(b.clients[i]) {
      ActiveFits(b, i);
      EgressCqeKeeps(At(b, i), generation, fd, res, multiset{} + OwnersBut(b.clients, i), Holders(b.clients));
      SiteStepKeeps(b, i, EgressCqe(At(b, i), generation, fd, res).site);
    } else {
      IdleClient(b, i);
      PutSame(b, i);
    }
  }

  lemma FlushStep(b: Broker, i: nat)
    requires Inv(b) && i < |b.clients| && Shaped(b.clients[i].slots)
    ensures Inv(Put(b, i, EgressFlush(At(b, i)).site))
    ensures Inv(Put(b, i, SweepClient(At(b, i))))
  {
    hide PoolInv, SlotInv, SubsInv, RecvInv, Sound, ClientOk, Refs, EgressFlush, SweepClient;
    if Connected(b.clients[i]) {
      ActiveFits(b, i);
      var X, Y := multiset{} + OwnersBut(b.clients, i), Holders(b.clients);
      FlushKeeps(At(b, i), X, Y);
      SweepClientKeeps(At(b, i), X, Y);
      SiteStepKeeps(b, i, EgressFlush(At(b, i)).site);
      SiteStepKeeps(b, i, SweepClient(At(b, i)));
    } else {
      IdleClient(b, i);
      PutSame(b, i);
    }
  }

  lemma SubsKeep(b: Broker, i: nat, k: nat)
    requires Inv(b) && i < |b.clients| && b.clients[i].state == Active && k < |b.nodes|
    ensures Inv(Subscribe(b, i, k)) && Inv(Unsubscribe(b, i, k))
  {
    hide PoolInv, SlotRecvs, FreeList, Census;
    assert NodeOk(b.clients, b.nodes[k]);
    NodesOnly(b, Subscribe(b, i, k));
    NodesOnly(b, Unsubscribe(b, i, k));
  }

  lemma NodesOnly(b: Broker, r: Broker)
    requires Inv(b) && r == b.(nodes := r.nodes)
    ensures PoolInv(r, multiset{}) && (exists chain :: SlotInv(r, chain)) && RecvInv(r)
  {
    hide Sound, FreeList, Census, SlotRecvs, ClientOk;
    var chain :| SlotInv(b, chain);
    assert SlotInv(r, chain);
    forall i | 0 <= i < |r.clients| ensures ClientWell(r, r.clients[i]) {
      assert ClientWell(b, b.clients[i]);
    }
  }

  /** New bytes in a buffer, a new clock, a new amount of submission room. */
  lemma BooksKeep(b: Broker, q: Pools)
    requires Inv(b) && q == b.p.(bufs := q.bufs, now := q.now, sqRoom := q.sqRoom) && |q.bufs| == |b.p.bufs|
    ensures Inv(b.(p := q))
  {
    hide SlotInv, SubsInv, RecvInv, ClientsWell, Sound, Owners, Holders;
    BooksOnly(b.p, q, multiset{} + Owners(b.clients), Holders(b.clients));
    OnlyPools(b, b.(p := q));
  }

  lemma ConnectKeeps(b: Broker, i: nat, clean: bool)
    requires Inv(b) && i < |b.clients| && b.clients[i].state == Active
    ensures Inv(b.(clients := b.clients[i := b.clients[i].(cleanSession := clean)]))
  {
    hide SlotInv, SubsInv, SlotRecvs, PoolInv, ClientWell, Refs, Held, OwnersBut, HoldersBut;
    var c := b.clients[i];
    var d := c.(cleanSession := clean);
    var r := b.(clients := b.clients[i := d]);
    SoundAt(b, i);
    CleanIrrelevant(b, i, c, d);
    ReplaceClient(b, r, i, d);
    SameMeta(b, r, i, d);
    OtherRecvs(b, r, i, d);
  }

  lemma CleanIrrelevant(b: Broker, i: nat, c: Client, d: Client)
    requires ClientWell(b, c) && Connected(c) && d == c.(cleanSession := d.cleanSession)
    ensures ClientWell(b, d) && Refs(d) == Refs(c) && Held(d) == Held(c)
    ensures SlotRecvs(b.recvs, i, c) ==> SlotRecvs(b.recvs, i, d)
  {
    assert forall r :: Current(c, r) == Current(d, r);
  }

  /** PUBREL frees an incoming entry, which owns nothing. */
  lemma PubrelKeeps(b: Broker, i: nat, id: u16)
    requires Inv(b) && i < |b.clients| && b.clients[i].state == Active
    ensures b.clients[i].slots.hot != []
    ensures Inv(b.(clients := b.clients[i := b.clients[i].(slots := PubrelReceived(b.clients[i].slots, id).slots)]))
  {
    hide Sound, ClientWell, Refs, Held, SlotInv, SubsInv, RecvInv, Owners, Holders, OwnersBut, HoldersBut, PubrelReceived;
    var c := b.clients[i];
    SoundAt(b, i);
    PubrelOwnsNothing(b, c, id);
    var d := c.(slots := PubrelReceived(c.slots, id).slots);
    var r := b.(clients := b.clients[i := d]);
    SlotsNotHeld(c, d);
    ReplaceClient(b, r, i, d);
    SameIdsKeep(b, r);
  }

  lemma PubrelOwnsNothing(b: Broker, c: Client, id: u16)
    requires ClientWell(b, c) && Connected(c)
    ensures c.slots.hot != []
    ensures var v := PubrelReceived(c.slots, id).slots;
            ClientWell(b, c.(slots := v)) && Refs(c.(slots := v)) == Refs(c)
  {
    hide Consistent, QueueRefs, EntryRefs, Find, LoadWireLen;
    var s := Find(c.slots.hot, id);
    if 0 <= s < |c.slots.hot| && c.slots.hot[s].state == WaitPubrel && c.slots.hot[s].direction == INCOMING {
      FreeSlotKeeps(c.slots, s);
      var w := FreeSlot(c.slots, s);
      EntryUpdate(c.slots.hot, s, w.hot[s]);
      assert w.hot == c.slots.hot[s := w.hot[s]];
      assert EntryRef(w.hot[s]) == multiset{} && EntryRef(c.slots.hot[s]) == multiset{};
      Cancel(EntryRefs(w.hot), EntryRefs(c.slots.hot), multiset{});
    }
  }

  /** Every event keeps every invariant. */
  lemma StepKeeps(b: Broker, e: Event)
    requires Inv(b) && Possible(b, e)
    ensures Shapes(b) && Inv(Step(b, e))
  {
    hide Inv, AcceptPossible, PublishPossible, PublishReceived;
    InvHasShapes(b);
    match e
    case Accept(fd) => AcceptKeeps(b, fd);
    case StartRecv(i, full) => SubmitRecvKeeps(b, i, full);
    case KernelWrites(r, data) => BooksKeep(b, b.p.(bufs := b.p.bufs[r.buf := data]));
    case MoveBytes(i, data) => BooksKeep(b, b.p.(bufs := b.p.bufs[b.clients[i].recvBuf := data]));
    case RecvCqe(r, res) => RecvDoneKeepsIff(b, r, res);
    case Connect(i, clean) => ConnectKeeps(b, i, clean);
    case Publish(i, pub, matches) => PublishKeeps(b, i, pub, matches);
    case Pubrel(i, id) => PubrelKeeps(b, i, id);
    case Puback(i, id) => AckKeeps(b, i, id);
    case Pubrec(i, id) => AckKeeps(b, i, id);
    case SubscribeAt(i, k) => SubsKeep(b, i, k);
    case UnsubscribeAt(i, k) => SubsKeep(b, i, k);
    case WritevCqe(i, generation, fd, res) => EgressCqeStep(b, i, generation, fd, res);
    case RetryFlush(i) => FlushStep(b, i);
    case TimeoutSweep(i) => FlushStep(b, i);
    case StartClose(fd) => SubmitCloseKeeps(b, fd);
    case CloseCqe(fd) => if Closes(b, fd) { CloseKeepsIff(b, fd); }
    case Tick(now, room) => BooksKeep(b, b.p.(now := now, sqRoom := room));
  }

  ghost predicate Feasible(b: Broker, es: seq<Event>)
    requires Inv(b)
    decreases es
  {
    es != [] ==> Possible(b, es[0]) && (StepKeeps(b, es[0]); Feasible(Step(b, es[0]), es[1..]))
  }

  /** The state after a run. Its postcondition is the induction: every reachable state satisfies Inv. */
  ghost function Run(b: Broker, es: seq<Event>): (r: Broker)
    requires Inv(b) && Feasible(b, es)
    ensures Inv(r)
    decreases es
  {
    if es == [] then b else StepKeeps(b, es[0]); Run(Step(b, es[0]), es[1..])
  }

  // ---- what the invariant means ----

  /** broker_init: every slot on the free list, every message and buffer on its stack. */
  ghost function Init(n: nat, maxInflight: nat, capacity: nat, msgCount: nat, maxFds: nat, nodeCount: nat, bufSize: nat): Broker
    requires 0 < n <= MAX_CLIENTS && msgCount < INVALID
  {
    Broker(Pools(seq(msgCount, _ => Msg(0, 0, 0, 0, 0, 0, false, 0)), seq(msgCount, k requires 0 <= k < msgCount => msgCount - 1 - k),
                 seq(n, _ => seq(bufSize, _ => 0)), seq(n, k requires 0 <= k < n => n - 1 - k), 0, 0),
           seq(n, i => Client(Vacant, false, 0, if i + 1 < n then i + 1 else -1, false, INVALID, INVALID, Blank(maxInflight),
                              [], capacity, false, 0)),
           seq(maxFds, _ => -1), 0, 0, 0, maxInflight, seq(nodeCount, _ => map[]), {})
  }

  lemma {:induction false} DownFrom(n: nat, s: seq<int>)
    requires |s| == n && forall k :: 0 <= k < n ==> s[k] == n - 1 - k
    ensures Distinct(s) && multiset(s) == multiset(Below(n))
  {
    if n > 0 {
      DownFrom(n - 1, s[1..]);
      assert s == [s[0]] + s[1..];
      assert Below(n) == Below(n - 1) + {n - 1};
      assert multiset(Below(n)) == multiset(Below(n - 1)) + multiset{n - 1};
    }
  }

  lemma InitHolds(n: nat, maxInflight: nat, capacity: nat, msgCount: nat, maxFds: nat, nodeCount: nat, bufSize: nat)
    requires 0 < n <= MAX_CLIENTS && msgCount < INVALID && ValidMax(maxInflight) && capacity <= MAX_EGRESS
    ensures Inv(Init(n, maxInflight, capacity, msgCount, maxFds, nodeCount, bufSize))
  {
    hide Sound, FreeList;
    var b := Init(n, maxInflight, capacity, msgCount, maxFds, nodeCount, bufSize);
    InitSound(b, n, msgCount);
    InitClients(b);
    InitSlots(b, n);
  }

  lemma InitSound(b: Broker, n: nat, msgCount: nat)
    requires |b.p.msgs| == |b.p.msgFree| == msgCount < INVALID && |b.p.bufs| == |b.p.bufFree| == n < INVALID
    requires forall k :: 0 <= k < msgCount ==> b.p.msgFree[k] == msgCount - 1 - k
    requires forall k :: 0 <= k < n ==> b.p.bufFree[k] == n - 1 - k
    requires forall i :: 0 <= i < |b.clients| ==> b.clients[i].state == Vacant && b.clients[i].recvBuf == INVALID == b.clients[i].orphan
    ensures Sound(b.p, multiset{} + Owners(b.clients), Holders(b.clients))
  {
    hide Counted, Partitioned;
    DownFrom(msgCount, b.p.msgFree);
    DownFrom(n, b.p.bufFree);
    SumEmpty(OwnerBags(b.clients));
    SumEmpty(HolderBags(b.clients));
    assert multiset{} + Owners(b.clients) == multiset{};
    AllMessagesFree(b.p, msgCount);
    AllBuffersFree(b.p);
  }

  lemma AllMessagesFree(p: Pools, msgCount: nat)
    requires |p.msgs| == |p.msgFree| == msgCount < INVALID && Distinct(p.msgFree)
    requires forall k :: 0 <= k < msgCount ==> p.msgFree[k] == msgCount - 1 - k
    ensures Counted(p, multiset{})
    ensures forall m :: 0 <= m < msgCount ==> m in p.msgFree
  {
    forall m | 0 <= m < msgCount ensures m in p.msgFree {
      assert p.msgFree[msgCount - 1 - m] == m;
    }
  }

  lemma AllBuffersFree(p: Pools)
    requires Bag(p.bufFree) == multiset(Below(|p.bufs|)) && |p.bufs| < INVALID
    requires forall m :: 0 <= m < |p.msgs| ==> m in p.msgFree
    ensures Partitioned(p, multiset{})
  {
    SumEmpty(LiveBags(p));
  }

  lemma InitClients(b: Broker)
    requires |b.clients| <= MAX_CLIENTS && ValidMax(b.maxInflight)
    requires forall i :: 0 <= i < |b.clients| ==>
               var c := b.clients[i];
               c.state == Vacant && c.slots == Blank(b.maxInflight) && c.queue == [] && !c.writing
               && c.recvBuf == INVALID && c.capacity <= MAX_EGRESS
    ensures ClientsWell(b)
  {
    BlankIsFree(b.maxInflight);
  }

  lemma InitSlots(b: Broker, n: nat)
    requires |b.clients| == n > 0 && b.freeHead == 0 && b.activeCount == b.dormantCount == 0
    requires forall i :: 0 <= i < n ==> b.clients[i].state == Vacant && b.clients[i].fd == if i + 1 < n then i + 1 else -1
    requires forall fd :: 0 <= fd < |b.fdToSlot| ==> b.fdToSlot[fd] == -1
    ensures exists chain :: SlotInv(b, chain)
  {
    hide Census;
    var chain := seq(n, i => i);
    InitChain(b.clients, chain, n);
    AllFreeCensus(b.clients);
    hide FreeList;
    assert FdsMapped(b) by { InitFds(b); }
    assert SlotInv(b, chain);
  }

  lemma InitFds(b: Broker)
    requires forall i :: 0 <= i < |b.clients| ==> b.clients[i].state == Vacant
    requires forall fd :: 0 <= fd < |b.fdToSlot| ==> b.fdToSlot[fd] == -1
    ensures FdsMapped(b)
  {
  }

  lemma InitChain(cs: seq<Client>, chain: seq<int>, n: nat)
    requires |cs| == |chain| == n > 0 && forall i :: 0 <= i < n ==> chain[i] == i
    requires forall i :: 0 <= i < n ==> cs[i].state == Vacant && cs[i].fd == if i + 1 < n then i + 1 else -1
    ensures FreeList(cs, 0, chain)
  {
    forall k | 0 <= k < n ensures LinkOf(cs, chain[k]) == NextFree(chain, k, n) {
    }
    forall i | 0 <= i < n ensures i in chain {
      assert chain[i] == i;
    }
  }

  lemma {:induction false} AllFreeCensus(cs: seq<Client>)
    requires forall i :: 0 <= i < |cs| ==> cs[i].state == Vacant
    ensures Census(cs)[0] == |cs| && Census(cs)[1] == 0 && Census(cs)[2] == 0
  {
    if cs != [] {
      AllFreeCensus(cs[1..]);
      assert KindBags(cs)[1..] == KindBags(cs[1..]);
    }
  }

  /** In every reachable state a message off the free stack counts exactly its owners, has one, and its
      count is far from wrapping. */
  lemma CountsAreOwners(b: Broker, m: nat)
    requires Inv(b) && m < |b.p.msgs|
    ensures m in b.p.msgFree ==> Owners(b.clients)[m] == 0
    ensures m !in b.p.msgFree ==> b.p.msgs[m].refCount == Owners(b.clients)[m] >= 1
    ensures Owners(b.clients)[m] + 1 < 0x1_0000_0000
  {
    hide SlotInv, SubsInv, RecvInv, ClientsWell, Partitioned;
    CountsFit(b, multiset{}, m);
    assert multiset{} + Owners(b.clients) == Owners(b.clients);
    assert Live(b.p, m) <==> m !in b.p.msgFree;
  }

  /** Once no client is connected the message pool is full again, and so is the buffer pool, orphans aside. */
  lemma AllBackAfterDisconnect(b: Broker)
    requires Inv(b) && forall i :: 0 <= i < |b.clients| ==> !Connected(b.clients[i])
    ensures |b.p.msgFree| == |b.p.msgs|
    ensures b.recvs == {} ==> |b.p.bufFree| == |b.p.bufs|
  {
    hide SlotInv, SubsInv, Sound, ClientOk, SlotRecvs;
    assert forall i :: 0 <= i < |b.clients| ==> ClientWell(b, b.clients[i]);
    SumEmpty(OwnerBags(b.clients));
    assert multiset{} + Owners(b.clients) == multiset{};
    AllFreeWhenUnowned(b.p, Holders(b.clients));
    if b.recvs == {} {
      NothingHeld(b);
      assert |Bag(b.p.bufFree) + multiset{}| == |b.p.bufFree|;
      assert |multiset(Below(|b.p.bufs|))| == |Below(|b.p.bufs|)|;
    }
  }

  lemma NothingHeld(b: Broker)
    requires ClientsWell(b) && RecvInv(b) && b.recvs == {} && forall i :: 0 <= i < |b.clients| ==> !Connected(b.clients[i])
    ensures Holders(b.clients) == multiset{}
  {
    hide ClientOk;
    forall i | 0 <= i < |b.clients| ensures Held(b.clients[i]) == multiset{} {
      assert ClientWell(b, b.clients[i]) && SlotRecvs(b.recvs, i, b.clients[i]);
    }
    SumEmpty(HolderBags(b.clients));
  }

  /** Each receive buffer is in exactly one place. */
  lemma BufferInOnePlace(b: Broker, x: nat)
    requires Inv(b) && x < |b.p.bufs|
    ensures Bag(b.p.bufFree)[x] + LiveBufs(b.p)[x] + Holders(b.clients)[x] == 1
  {
    hide SlotInv, SubsInv, RecvInv, ClientsWell, Counted, LiveBufs, Holders;
    assert (Bag(b.p.bufFree) + LiveBufs(b.p) + Holders(b.clients))[x] == multiset(Below(|b.p.bufs|))[x];
  }

  /** A buffer the kernel may still write to is neither free nor shared by a live message. */
  lemma RecvTargetIsPrivate(b: Broker, r: Recv, m: nat)
    requires Inv(b) && r in b.recvs && Live(b.p, m)
    ensures r.buf !in b.p.bufFree && b.p.msgs[m].bufIdx != r.buf
  {
    hide SlotInv, SubsInv, ClientsWell, Counted, Partitioned, Holders, Owners;
    var c := b.clients[r.slot];
    assert SlotRecvs(b.recvs, r.slot, c);
    HoldersSplit(b.clients, r.slot, c);
    assert r.buf in Held(c);
    assert r.buf in Holders(b.clients);
    InPlaces(b.p, Holders(b.clients), r.buf, m);
  }

  /** Nor is a buffer that a client reads from. */
  lemma WindowIsPrivate(b: Broker, i: nat, m: nat)
    requires Inv(b) && i < |b.clients| && b.clients[i].recvBuf < |b.p.bufs| && Live(b.p, m)
    ensures b.clients[i].recvBuf !in b.p.bufFree && b.p.msgs[m].bufIdx != b.clients[i].recvBuf
  {
    hide SlotInv, SubsInv, RecvInv, ClientsWell, Counted, Bag, LiveBufs, Below, Holders, Owners, HoldersBut;
    HoldersSplit(b.clients, i, b.clients[i]);
    assert b.clients[i].recvBuf in Held(b.clients[i]);
    InPlaces(b.p, Holders(b.clients), b.clients[i].recvBuf, m);
  }

  lemma InPlaces(p: Pools, held: multiset<int>, x: int, m: nat)
    requires Partitioned(p, held) && x in held && Live(p, m)
    ensures x !in p.bufFree && p.msgs[m].bufIdx != x
  {
    var all := Bag(p.bufFree) + LiveBufs(p) + held;
    assert all[x] == Bag(p.bufFree)[x] + LiveBufs(p)[x] + held[x] <= 1;
    SumUpdate(LiveBags(p), m, multiset{});
    assert LiveBag(p, m) <= LiveBufs(p);
    assert x in p.bufFree ==> x in Bag(p.bufFree);
  }

  /** Free, connected and dormant slots add up to all slots, and the free list holds exactly the free ones. */
  lemma SlotsAddUp(b: Broker)
    requires Inv(b)
    ensures exists chain: seq<int> ::
              && FreeList(b.clients, b.freeHead, chain)
              && |chain| + b.activeCount + b.dormantCount == |b.clients|
  {
    hide PoolInv, SubsInv, RecvInv, FreeList;
    var chain :| SlotInv(b, chain);
    CensusTotal(b.clients);
  }

  lemma {:induction false} CensusTotal(cs: seq<Client>)
    ensures Census(cs)[0] + Census(cs)[1] + Census(cs)[2] == |cs|
  {
    if cs != [] {
      CensusTotal(cs[1..]);
      assert KindBags(cs)[1..] == KindBags(cs[1..]);
      assert Census(cs) == multiset{Kind(cs[0])} + Census(cs[1..]);
    }
  }

  /** One PUBLISH in any reachable state: exactly the active subscribers of the matched nodes, each once. */
  lemma FanOutIsExact(b: Broker, i: nat, pub: Incoming, matches: seq<map<int, byte>>)
    requires Inv(b) && PublishPossible(b, i, matches) && Shapes(b) && FansOut(b, i, pub)
    ensures var started := PublishReceived(b, i, pub, matches).1;
            Distinct(started) && forall j :: j in started <==> Subscribed(matches, j) && IsActive(b.clients, j)
  {
    hide Inv, PublishReceived;
    PublishKeeps(b, i, pub, matches);
  }
}
