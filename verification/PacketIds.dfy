/** The ids of outgoing packets over whole runs (src/broker/client.h). The code keeps a generation; here a run is asked how
    often a new message took slot 0, which a table does not remember. */
module PacketIds {
  import opened Common
  import opened Probing
  import opened Inflight
  import opened Qos2
  import opened Receipts
  import opened Broker
  import opened BrokerInv
  import R = Runs

  /** A new outgoing message takes slot s: it was free and is in use afterwards. */
  ghost predicate Takes(v: Slots, e: Qos2.Event, s: nat)
    requires Consistent(v) && Qos2.Possible(v, e)
  {
    AfterKeeps(v, e);
    e.Send? && s < |v.hot| && v.hot[s].state == Free && s < |After(v, e).hot| && After(v, e).hot[s].state != Free
  }

  /** How often that happens over a run. */
  ghost function TimesTaken(v: Slots, es: seq<Qos2.Event>, s: nat): nat
    requires Consistent(v) && Qos2.Feasible(v, es)
    decreases es
  {
    if es == [] then 0
    else
      AfterKeeps(v, es[0]);
      Count(Takes(v, es[0], s)) + TimesTaken(After(v, es[0]), es[1..], s)
  }

  /** The id of the message that slot s of n gets after t messages have taken slot 0. */
  function IdAt(s: nat, t: nat, n: nat): nat {
    var id := (s + 1 + t * n) % 0x1_0000;
    if id == 0 then s + 1 else id
  }

  // ---- one event ----

  /** A send goes to the first free slot at or behind the hint, wrapping around, waits there for the acknowledgement of its
      QoS, and moves the hint behind it. It is refused if and only if no slot is free. */
  lemma SendGoesRound(v: Slots, qos: byte, m: u32, deadline: int)
    requires Consistent(v)
    ensures (forall s :: 0 <= s < |v.hot| ==> v.hot[s].state != Free) <==> Alloc(v, qos, m, deadline).slot < 0
    ensures Alloc(v, qos, m, deadline).slot < 0 ==> After(v, Send(qos, m, deadline)) == v
    ensures Alloc(v, qos, m, deadline).slot >= 0 ==>
              var w, s := After(v, Send(qos, m, deadline)), Alloc(v, qos, m, deadline).slot;
              && s < |v.hot| == |w.hot| == |w.cold| && v.hot[s].state == Free
              && (forall k :: 0 <= k < |v.hot| && v.hot[k].state == Free ==> Dist(v.hint, s, |v.hot|) <= Dist(v.hint, k, |v.hot|))
              && w.hint == (s + 1) % |v.hot| && w.count == v.count + 1
              && w.hot == v.hot[s := w.hot[s]] && w.hot[s].state == (if qos == 1 then WaitPuback else WaitPubrec)
              && w.hot[s].direction == OUTGOING && w.hot[s].msgIdx == m
              && w.cold == v.cold[s := Cold(deadline, qos, 0)]
  {
    hide EntryOk, NonFree, Search, Dist, Next, AssignId;
    CountDecides(v.hot);
    RoomIsFound(v);
    if v.count < |v.hot| {
      NextIsModulo(Search(v.hot, v.hint, 0), |v.hot|);
      forall k | 0 <= k < |v.hot| && v.hot[k].state == Free
        ensures Dist(v.hint, Search(v.hot, v.hint, 0), |v.hot|) <= Dist(v.hint, k, |v.hot|)
      {
        Nearest(v.hot, v.hint, k);
      }
    }
  }

  /** A receipt takes the first free slot at or behind the same hint and moves it as well, the generation never. */
  lemma ReceiptGoesRound(v: Slots, id: u16, deadline: int)
    requires Consistent(v) && v.count < |v.hot| && !InReceipt(v, id)
    ensures var t := Track(v, id, deadline); var w, s := t.slots, t.slot;
            && 0 <= s < |v.hot| && v.hot[s].state == Free
            && (forall k :: 0 <= k < |v.hot| && v.hot[k].state == Free ==> Dist(v.hint, s, |v.hot|) <= Dist(v.hint, k, |v.hot|))
            && w.hot == v.hot[s := Hot(id, WaitPubrel, INCOMING, INVALID)] && w.cold == v.cold[s := Cold(deadline, 2, 0)]
            && w.count == v.count + 1 && w.hint == (s + 1) % |v.hot| && w.generation == v.generation
  {
    hide EntryOk, NonFree, Search, Dist, Next;
    CountDecides(v.hot);
    RoomIsFound(v);
    NextIsModulo(Search(v.hot, v.hint, 0), |v.hot|);
    forall k | 0 <= k < |v.hot| && v.hot[k].state == Free
      ensures Dist(v.hint, Search(v.hot, v.hint, 0), |v.hot|) <= Dist(v.hint, k, |v.hot|)
    {
      Nearest(v.hot, v.hint, k);
    }
  }

  lemma Nearest(hot: seq<Hot>, hint: nat, k: nat)
    requires hint < |hot| && k < |hot| && hot[k].state == Free
    ensures Dist(hint, Search(hot, hint, 0), |hot|) <= Dist(hint, k, |hot|)
  {
    SearchFinds(hot, hint, 0, k);
  }

  lemma NextIsModulo(s: nat, n: nat)
    requires s < n
    ensures Next(s, n) == (s + 1) % n
  {
  }

  /** A send of slot s gets the id that the generation gives, and takes the generation further if s is 0. */
  lemma SendStep(v: Slots, e: Qos2.Event, s: nat)
    requires Consistent(v) && Qos2.Possible(v, e)
    ensures |After(v, e).hot| == |v.hot|
    ensures After(v, e).generation == (v.generation + Count(Takes(v, e, 0))) % 0x1_0000
    ensures Takes(v, e, s) ==> s < |v.hot| && After(v, e).hot[s].packetId == IdAt(s, v.generation, |v.hot|)
  {
    hide EntryOk, NonFree, Search, Find, Track, TrackedAt;
    AfterKeeps(v, e);
    match e
    case Send(qos, m, d) => AllocKeeps(v, qos, m, d);
    case Publish(id, now) => TrackGeneration(v, id, now + INFLIGHT_TIMEOUT_MS);
    case WriteFailed(ids) => UndoGeneration(v, ids);
    case _ =>
  }

  lemma TrackGeneration(v: Slots, id: u16, deadline: int)
    requires Shaped(v)
    ensures Track(v, id, deadline).slots.generation == v.generation && |Track(v, id, deadline).slots.hot| == |v.hot|
  {
  }

  lemma {:induction false} UndoGeneration(v: Slots, ids: seq<u16>)
    requires v.hot != []
    ensures Undo(v, ids).generation == v.generation
    decreases |ids|
  {
    if ids != [] {
      UndoGeneration(UndoOne(v, ids[0]), ids[1..]);
    }
  }

  // ---- whole runs ----

  /** The generation counts the messages that took slot 0, in 16 bits. */
  lemma {:induction false} GenerationCounts(v: Slots, es: seq<Qos2.Event>)
    requires Consistent(v) && Qos2.Feasible(v, es)
    ensures |Last(v, es).hot| == |v.hot|
    ensures Last(v, es).generation == (v.generation + TimesTaken(v, es, 0)) % 0x1_0000
    decreases es
  {
    hide EntryOk, NonFree, After, Takes, Qos2.Possible;
    if es != [] {
      AfterKeeps(v, es[0]);
      SendStep(v, es[0], 0);
      GenerationCounts(After(v, es[0]), es[1..]);
      SumModulo(v.generation + Count(Takes(v, es[0], 0)), TimesTaken(After(v, es[0]), es[1..], 0));
    }
  }

  lemma SumModulo(a: nat, b: nat)
    ensures (a % 0x1_0000 + b) % 0x1_0000 == (a + b) % 0x1_0000
  {
  }

  lemma BlankIsConsistent(n: nat)
    requires ValidMax(n)
    ensures Consistent(Blank(n))
  {
    BlankIsFree(n);
  }

  lemma SameResidue(s: nat, t: nat, n: nat)
    requires ValidMax(n)
    ensures (s + 1 + t % 0x1_0000 * n) % 0x1_0000 == (s + 1 + t * n) % 0x1_0000
  {
    var q := t / 0x1_0000;
    assert t * n == t % 0x1_0000 * n + q * n * 0x1_0000 by {
      assert t == t % 0x1_0000 + q * 0x1_0000;
    }
    ModAdd(s + 1 + t % 0x1_0000 * n, q * n);
  }

  lemma ModAdd(x: int, m: int)
    ensures (x + m * 0x1_0000) % 0x1_0000 == x % 0x1_0000
  {
  }

  /** From a new connection on, over any run: the message that slot s gets has the id s + 1 + t * max_inflight in 16 bits, or
      s + 1 where that is zero, with t the number of messages that took slot 0 before. */
  lemma IdsOverRuns(n: nat, es: seq<Qos2.Event>, e: Qos2.Event, s: nat)
    requires ValidMax(n) && Consistent(Blank(n)) && Qos2.Feasible(Blank(n), es) && Qos2.Possible(Last(Blank(n), es), e)
    requires Takes(Last(Blank(n), es), e, s)
    ensures s < |After(Last(Blank(n), es), e).hot|
    ensures var t := TimesTaken(Blank(n), es, 0); var id := (s + 1 + t * n) % 0x1_0000;
            After(Last(Blank(n), es), e).hot[s].packetId == if id == 0 then s + 1 else id
  {
    hide Consistent, After, Takes, Qos2.Possible, Qos2.Feasible, Last, TimesTaken;
    GenerationCounts(Blank(n), es);
    SendStep(Last(Blank(n), es), e, s);
    SameResidue(s, TimesTaken(Blank(n), es, 0), n);
  }

  // ---- when an id comes back ----

  /** Taken slot 0 k = 2^16 / max_inflight times, the ids of a slot start again; the last one before is the zero fix-up in
      the last slot, which repeats the first. */
  lemma IdAtCycle(s: nat, t: nat, n: nat)
    requires ValidMax(n) && s < n
    ensures var k := 0x1_0000 / n;
            IdAt(s, t, n) == s + 1 + (if s == n - 1 && t % k == k - 1 then 0 else t % k * n)
  {
    var k := 0x1_0000 / n;
    var q, r := t / k, t % k;
    Rounds(t, k, n);
    ModAdd(s + 1 + r * n, q);
    Product(r, k - 1, n);
    if r < k - 1 {
      Product(r, k - 2, n);
    }
  }

  lemma Rounds(t: nat, k: nat, n: nat)
    requires k > 0 && k * n == 0x1_0000
    ensures t * n == t % k * n + t / k * 0x1_0000
  {
    assert t == t / k * k + t % k;
    assert t * n == (t / k * k) * n + t % k * n;
    assert (t / k * k) * n == t / k * (k * n);
  }

  /** A product of the cycle, by its distance from 2^16. */
  lemma Product(r: int, limit: int, n: nat)
    requires r <= limit && ValidMax(n)
    ensures r * n <= limit * n == 0x1_0000 - (0x1_0000 / n - limit) * n
    ensures (0x1_0000 / n) * n == 0x1_0000
  {
    var k := 0x1_0000 / n;
    assert k * n == 0x1_0000;
    assert limit * n == k * n - (k - limit) * n;
    assert (limit - r) * n >= 0;
  }

  /** Two messages in the same slot have the same id if and only if slot 0 was taken a multiple of 2^16 / max_inflight times
      in between, or the slot is the last one and one of the two ids is the zero fix-up of the other round. */
  lemma SameIdIff(s: nat, t1: nat, t2: nat, n: nat)
    requires ValidMax(n) && s < n
    ensures var k := 0x1_0000 / n;
            IdAt(s, t1, n) == IdAt(s, t2, n) <==> t1 % k == t2 % k || (s == n - 1 && t1 % k in {0, k - 1} && t2 % k in {0, k - 1})
  {
    var k := 0x1_0000 / n;
    IdAtCycle(s, t1, n);
    IdAtCycle(s, t2, n);
    var r1, r2 := t1 % k, t2 % k;
    Multiples(r1, r2, n);
    Multiples(r1, 0, n);
    Multiples(0, r2, n);
  }

  lemma Multiples(a: int, b: int, n: nat)
    requires n > 0
    ensures a * n == b * n <==> a == b
  {
    var d := a - b;
    assert a * n - b * n == d * n;
    if d != 0 {
      assert d * n != 0;
    }
  }

  lemma {:induction false} TimesTakenAppend(v: Slots, es: seq<Qos2.Event>, fs: seq<Qos2.Event>, s: nat)
    requires Consistent(v) && Qos2.Feasible(v, es) && Qos2.Feasible(Last(v, es), fs)
    ensures Qos2.Feasible(v, es + fs) && Last(v, es + fs) == Last(Last(v, es), fs)
    ensures TimesTaken(v, es + fs, s) == TimesTaken(v, es, s) + TimesTaken(Last(v, es), fs, s)
    decreases es
  {
    hide EntryOk, NonFree, After, Takes, Qos2.Possible;
    if es == [] {
      assert es + fs == fs;
    } else {
      AfterKeeps(v, es[0]);
      TimesTakenAppend(After(v, es[0]), es[1..], fs, s);
      assert (es + fs)[0] == es[0] && (es + fs)[1..] == es[1..] + fs;
    }
  }

  /** One slot, two messages, anything in between. While slot 0 is not taken the slot gives the same id again. Taken fewer
      than 2^16 / max_inflight times, it does not, the last slot with its fix-up aside. */
  lemma IdsOfOneSlot(n: nat, es: seq<Qos2.Event>, e1: Qos2.Event, fs: seq<Qos2.Event>, e2: Qos2.Event, s: nat)
    requires ValidMax(n) && Consistent(Blank(n)) && Qos2.Feasible(Blank(n), es) && Qos2.Possible(Last(Blank(n), es), e1)
    requires Takes(Last(Blank(n), es), e1, s) && Qos2.Feasible(Last(Blank(n), es), fs)
    requires Qos2.Possible(Last(Last(Blank(n), es), fs), e2) && Takes(Last(Last(Blank(n), es), fs), e2, s)
    ensures var v1 := Last(Blank(n), es); var v2 := Last(v1, fs); var k := 0x1_0000 / n;
            var t1, between := TimesTaken(Blank(n), es, 0), TimesTaken(v1, fs, 0);
            && s < |After(v1, e1).hot| && s < |After(v2, e2).hot|
            && var same := After(v1, e1).hot[s].packetId == After(v2, e2).hot[s].packetId;
               && (between == 0 ==> same)
               && (s < n - 1 ==> (same <==> between % k == 0))
               && (s == n - 1 ==> (same <==> between % k == 0 || (t1 % k in {0, k - 1} && (t1 + between) % k in {0, k - 1})))
  {
    hide Consistent, After, Takes, Qos2.Possible, Qos2.Feasible, Last, TimesTaken;
    var t1, between := TimesTaken(Blank(n), es, 0), TimesTaken(Last(Blank(n), es), fs, 0);
    TimesTakenAppend(Blank(n), es, fs, 0);
    IdsOverRuns(n, es, e1, s);
    IdsOverRuns(n, es + fs, e2, s);
    SendStep(Last(Blank(n), es), e1, s);
    GenerationCounts(Blank(n), es);
    SameIdIff(s, t1, t1 + between, n);
    SameRemainder(t1, between, 0x1_0000 / n);
  }

  lemma SameRemainder(t: nat, d: nat, k: nat)
    requires k > 0
    ensures t % k == (t + d) % k <==> d % k == 0
  {
    var x, y, z := t / k, (t + d) / k, d / k;
    assert d == (y - x) * k + (t + d) % k - t % k;
    if t % k == (t + d) % k {
      Multiple(y - x, k);
    }
    if d % k == 0 {
      assert t + d == (x + z) * k + t % k;
      Remainder(t % k, x + z, k);
    }
  }

  lemma Multiple(m: int, k: nat)
    requires k > 0
    ensures (m * k) % k == 0
  {
    Remainder(0, m, k);
  }

  lemma Remainder(r: int, m: int, k: nat)
    requires 0 <= r < k
    ensures (m * k + r) % k == r
  {
    ModShift(r, m, k);
  }

  // ---- short runs ----

  /** The generation moves on with the first message, so the second slot gives 66, not 2. */
  lemma FirstIds()
    ensures ValidMax(64) && Consistent(Blank(64))
    ensures var v1 := After(Blank(64), Send(1, 7, 0)); var v2 := After(v1, Send(1, 8, 0));
            v2.hot[0].packetId == 1 && v2.hot[1].packetId == 66
  {
    BlankIsConsistent(64);
    var v1 := After(Blank(64), Send(1, 7, 0));
    assert v1.hot[1].state == Free && v1.hot[0].packetId == 1;
    SecondId(v1);
  }

  lemma SecondId(v: Slots)
    requires Shaped(v) && |v.hot| == 64 && v.hint == v.generation == v.count == 1 && v.hot[1].state == Free
    ensures var w := After(v, Send(1, 8, 0)); |w.hot| == 64 && w.hot[0] == v.hot[0] && w.hot[1].packetId == 66
  {
  }

  /** With one slot, the message after an acknowledged one has another id. */
  lemma NextIdIsNew()
    ensures ValidMax(1) && Consistent(Blank(1))
    ensures var v1 := After(Blank(1), Send(1, 7, 0)); Qos2.Possible(v1, Done(0))
    ensures var v1 := After(Blank(1), Send(1, 7, 0)); var v3 := After(After(v1, Done(0)), Send(1, 8, 0));
            v1.hot[0].packetId == 1 && v3.hot[0].packetId == 2
  {
    BlankIsConsistent(1);
  }

  /** While the message in slot 0 is not acknowledged, the message after an acknowledged one has the same id. */
  lemma HeldSlotRepeatsId()
    ensures ValidMax(2) && Consistent(Blank(2))
    ensures var v2 := After(After(Blank(2), Send(1, 7, 0)), Send(1, 8, 0)); Qos2.Possible(v2, Done(1))
    ensures var v2 := After(After(Blank(2), Send(1, 7, 0)), Send(1, 8, 0)); var v4 := After(After(v2, Done(1)), Send(1, 9, 0));
            && v2.hot[1].packetId == 4 && v2.hot[1].msgIdx == 8
            && v4.hot[1].packetId == 4 && v4.hot[1].msgIdx == 9 && v4.hot[1].state == WaitPuback
  {
    BlankIsConsistent(2);
    var v1 := After(Blank(2), Send(1, 7, 0));
    assert v1.hot == [Hot(1, WaitPuback, OUTGOING, 7), BLANK_HOT];
    var v2 := After(v1, Send(1, 8, 0));
    assert v2.hot == [Hot(1, WaitPuback, OUTGOING, 7), Hot(4, WaitPuback, OUTGOING, 8)] && v2.hint == 0;
    var v3 := After(v2, Done(1));
    assert v3.hot == [Hot(1, WaitPuback, OUTGOING, 7), Hot(4, Free, OUTGOING, INVALID)] && v3.count == 1;
  }

  // ---- the ids in flight, and the whole broker ----

  /** An outgoing entry after an event was there before, or a new message took its slot. */
  lemma {:induction false} OutgoingStay(v: Slots, e: Qos2.Event, s: nat)
    requires Consistent(v) && Qos2.Possible(v, e) && s < |v.hot|
    ensures |After(v, e).hot| == |v.hot|
    ensures Outgoing(After(v, e).hot[s]) ==> After(v, e).hot[s] == v.hot[s] || Takes(v, e, s)
  {
    hide EntryOk, NonFree, Search, Find, TrackedAt;
    match e
    case Send(qos, m, d) => AllocKeeps(v, qos, m, d);
    case WriteFailed(ids) => UndoStays(v, ids, s);
    case _ =>
  }

  lemma {:induction false} UndoStays(v: Slots, ids: seq<u16>, s: nat)
    requires v.hot != [] && s < |v.hot|
    ensures Undo(v, ids).hot[s].state != Free ==> Undo(v, ids).hot[s] == v.hot[s]
    decreases |ids|
  {
    if ids != [] {
      UndoStays(UndoOne(v, ids[0]), ids[1..], s);
    }
  }

  /** Every message in flight has the id of its slot for some number of messages in slot 0, t at most. */
  ghost predicate IdsUpTo(v: Slots, t: nat) {
    && v.generation == t % 0x1_0000
    && forall s :: 0 <= s < |v.hot| && Outgoing(v.hot[s]) ==> exists k :: 0 <= k <= t && v.hot[s].packetId == IdAt(s, k, |v.hot|)
  }

  lemma IdsStep(v: Slots, e: Qos2.Event, t: nat)
    requires Consistent(v) && Qos2.Possible(v, e) && IdsUpTo(v, t)
    ensures IdsUpTo(After(v, e), t + Count(Takes(v, e, 0)))
  {
    hide EntryOk, NonFree, After, Takes, Qos2.Possible, IdAt;
    var w := After(v, e);
    SendStep(v, e, 0);
    forall s | 0 <= s < |w.hot| && Outgoing(w.hot[s])
      ensures exists k :: 0 <= k <= t + Count(Takes(v, e, 0)) && w.hot[s].packetId == IdAt(s, k, |w.hot|)
    {
      OutgoingStay(v, e, s);
      if Takes(v, e, s) {
        SendStep(v, e, s);
        Generation(v, s, t);
        assert w.hot[s].packetId == IdAt(s, t, |w.hot|);
      } else {
        var k :| 0 <= k <= t && v.hot[s].packetId == IdAt(s, k, |v.hot|);
        assert w.hot[s].packetId == IdAt(s, k, |w.hot|);
      }
    }
  }

  lemma Generation(v: Slots, s: nat, t: nat)
    requires Shaped(v) && v.generation == t % 0x1_0000
    ensures IdAt(s, v.generation, |v.hot|) == IdAt(s, t, |v.hot|)
  {
    SameResidue(s, t, |v.hot|);
  }

  lemma {:induction false} IdsRun(v: Slots, es: seq<Qos2.Event>, t: nat)
    requires Consistent(v) && Qos2.Feasible(v, es) && IdsUpTo(v, t)
    ensures IdsUpTo(Last(v, es), t + TimesTaken(v, es, 0))
    decreases es
  {
    hide EntryOk, NonFree, After, Takes, Qos2.Possible, IdsUpTo;
    if es != [] {
      AfterKeeps(v, es[0]);
      IdsStep(v, es[0], t);
      IdsRun(After(v, es[0]), es[1..], t + Count(Takes(v, es[0], 0)));
    }
  }

  /** Over every run of the whole broker the table of a living connection runs through events of the table. */
  lemma {:induction false} TableOverRuns(b: Broker, es: seq<R.Event>, i: nat) returns (qs: seq<Qos2.Event>)
    requires Inv(b) && R.Feasible(b, es) && Stays(b, es, i) && i < |b.clients|
    ensures i < |R.Run(b, es).clients| && Consistent(b.clients[i].slots)
    ensures Qos2.Feasible(b.clients[i].slots, qs) && Last(b.clients[i].slots, qs) == R.Run(b, es).clients[i].slots
    decreases es
  {
    hide Inv, EntryOk, NonFree, R.Possible, R.Step, R.Shapes, Lives, Drifts, After, Head;
    TableOk(b, i);
    var v := b.clients[i].slots;
    if es == [] {
      qs := [];
    } else {
      R.StepKeeps(b, es[0]);
      StepTable(b, es[0], i);
      var c := R.Step(b, es[0]);
      var more := TableOverRuns(c, es[1..], i);
      var aside := HeadThenAside(v, Head(b, es[0], i), c.clients[i].slots);
      RunAppend(v, aside, more);
      qs := aside + more;
    }
  }

  lemma HeadThenAside(v: Slots, h: seq<Qos2.Event>, w: Slots) returns (qs: seq<Qos2.Event>)
    requires Consistent(v) && |h| <= 1 && (h != [] ==> Qos2.Possible(v, h[0])) && Drifts(Headed(v, h), w)
    ensures Qos2.Feasible(v, qs) && Last(v, qs) == w
  {
    hide EntryOk, NonFree, After, Qos2.Possible;
    var es :| AllAside(es) && Qos2.Feasible(Headed(v, h), es) && Last(Headed(v, h), es) == w;
    if h == [] {
      qs := es;
    } else {
      qs := [h[0]] + es;
      AfterKeeps(v, h[0]);
      assert qs[0] == h[0] && qs[1..] == es;
    }
  }

  /** In the whole broker, from the accept of a connection on: whatever happens, its table has run through events of the
      table from a blank one, and each of its messages in flight has an id of its slot as these events gave them. */
  lemma IdsInBroker(b: Broker, es: seq<R.Event>, i: nat, n: nat) returns (qs: seq<Qos2.Event>)
    requires Inv(b) && R.Feasible(b, es) && Stays(b, es, i) && i < |b.clients| && ValidMax(n) && b.clients[i].slots == Blank(n)
    ensures i < |R.Run(b, es).clients| && Consistent(Blank(n))
    ensures Qos2.Feasible(Blank(n), qs) && Last(Blank(n), qs) == R.Run(b, es).clients[i].slots
    ensures IdsUpTo(R.Run(b, es).clients[i].slots, TimesTaken(Blank(n), qs, 0))
  {
    hide Inv, R.Feasible, R.Run, Stays, Consistent, Qos2.Feasible, Last, TimesTaken;
    qs := TableOverRuns(b, es, i);
    IdsRun(Blank(n), qs, 0);
  }
}
