/** Which entries a timeout sweep touches, and which it leaves (src/broker/mqtt_fsm.h). */
module Timeouts {
  import opened Common
  import opened Inflight
  import opened Shared
  import opened Egress
  import opened Flush
  import opened Ceremony
  import opened Acks
  import opened Broker
  import opened FanoutSteps
  import Receipts

  /** A message in flight whose deadline has passed; deadline 0 is none. */
  predicate Overdue(v: Slots, now: int, t: nat)
    requires t < |v.hot| == |v.cold|
  {
    v.hot[t].state != Free && v.hot[t].direction == OUTGOING && v.cold[t].deadline != 0 && v.cold[t].deadline < now
  }

  /** And it was sent again three times already. */
  predicate Spent(v: Slots, now: int, t: nat)
    requires t < |v.hot| == |v.cold|
  {
    Overdue(v, now, t) && v.cold[t].dupCount >= 3
  }

  // ---- nothing is touched before its time ----

  lemma {:induction false} SweepIdles(s: Site, i: nat, found: nat)
    requires Shaped(s.c.slots)
    requires forall t :: i <= t < |s.c.slots.hot| ==> !Overdue(s.c.slots, s.p.now, t)
    ensures Sweep(s, i, found) == s
    decreases |s.c.slots.hot| - i
  {
    hide Timeout;
    if i < |s.c.slots.hot| && found < s.c.slots.count {
      assert !Overdue(s.c.slots, s.p.now, i);
      SweepIdles(s, i + 1, if s.c.slots.hot[i].state == Free then found else found + 1);
    }
  }

  /** A sweep changes nothing if no message is overdue, and nothing of a client that is not active. */
  lemma NothingOverdue(s: Site)
    requires Shaped(s.c.slots)
    requires s.c.state != Active || forall t :: 0 <= t < |s.c.slots.hot| ==> !Overdue(s.c.slots, s.p.now, t)
    ensures SweepClient(s) == s
  {
    if s.c.state == Active {
      SweepIdles(s, 0, 0);
    }
  }

  lemma {:induction false} PreCleanClock(s: Site)
    ensures PreClean(s).p.now == s.p.now
    decreases |s.c.queue|
  {
    if s.c.queue != [] && Unsendable(s.c.queue[0], s.c.generation) {
      PreCleanClock(DiscardHead(s));
    }
  }

  lemma FlushClock(s: Site)
    requires Shaped(s.c.slots)
    ensures EgressFlush(s).site.p.now == s.p.now
  {
    hide PreClean, Gather, Offer, Shaped;
    PreCleanClock(s);
  }

  /** The site in which fsm_sub_timeout flushes: one retry more, a new deadline, and the message queued again. */
  function Resent(s: Site, slot: nat): Site
    requires Shaped(s.c.slots) && slot < |s.c.slots.hot|
  {
    var v, cold := s.c.slots, s.c.slots.cold[slot];
    var late := v.(cold := v.cold[slot := Cold(s.p.now + 30000, cold.qos, (cold.dupCount + 1) % 0x100)]);
    var s1 := s.(c := s.c.(slots := late));
    s1.(c := Push(s1.c, PublishSeg(s1, v.hot[slot].msgIdx, v.hot[slot].packetId, cold.qos, true)))
  }

  lemma TimeoutCases(s: Site, slot: nat)
    requires Shaped(s.c.slots) && slot < |s.c.slots.hot|
    ensures s.c.slots.cold[slot].dupCount < 3 && !Full(s.c) ==> Timeout(s, slot) == EgressFlush(Resent(s, slot)).site
    ensures s.c.slots.cold[slot].dupCount >= 3 ==> Timeout(s, slot) == Finish(s, slot)
    ensures s.c.slots.cold[slot].dupCount < 3 && Full(s.c) ==>
              Timeout(s, slot) == Finish(s.(c := s.c.(slots := Resent(s, slot).c.slots)), slot)
  {
    hide EgressFlush, PublishSeg;
  }

  /** A timeout of one entry leaves every other entry in use as it is. */
  lemma TimeoutSpares(s: Site, slot: nat, t: nat)
    requires Consistent(s.c.slots) && slot < |s.c.slots.hot| && Outgoing(s.c.slots.hot[slot])
    requires t < |s.c.slots.hot| && t != slot && s.c.slots.hot[t].state != Free
    ensures var r := Timeout(s, slot); var w := r.c.slots;
            && Consistent(w) && |w.hot| == |s.c.slots.hot| && w.hot[t] == s.c.slots.hot[t] && w.cold[t] == s.c.slots.cold[t]
            && r.p.now == s.p.now
  {
    hide EntryOk, NonFree, EgressFlush, PublishSeg, Timeout, Receipts.Drifts;
    Receipts.TimeoutDrifts(s, slot);
    TimeoutCases(s, slot);
    if s.c.slots.cold[slot].dupCount < 3 && !Full(s.c) {
      FlushKeepsEntries(Resent(s, slot));
      FlushClock(Resent(s, slot));
    }
  }

  lemma {:induction false} SweepSpares(s: Site, i: nat, found: nat, t: nat)
    requires Consistent(s.c.slots) && t < |s.c.slots.hot| && s.c.slots.hot[t].state != Free
    requires t < i || !Overdue(s.c.slots, s.p.now, t)
    ensures var w := Sweep(s, i, found).c.slots;
            t < |w.hot| == |w.cold| && w.hot[t] == s.c.slots.hot[t] && w.cold[t] == s.c.slots.cold[t]
    decreases |s.c.slots.hot| - i
  {
    hide EntryOk, NonFree, Timeout;
    if i < |s.c.slots.hot| && found < s.c.slots.count {
      if s.c.slots.hot[i].state == Free {
        SweepSpares(s, i + 1, found, t);
      } else if Expired(s, i) {
        TimeoutSpares(s, i, t);
        SweepSpares(Timeout(s, i), i + 1, found + 1, t);
      } else {
        SweepSpares(s, i + 1, found + 1, t);
      }
    }
  }

  /** An entry with time left, without a deadline, or of the receiving direction keeps both halves through a whole sweep,
      whatever the sweep does to the others. */
  lemma TimeLeftIsSpared(s: Site, t: nat)
    requires Consistent(s.c.slots) && t < |s.c.slots.hot| && s.c.slots.hot[t].state != Free
    requires s.c.slots.cold[t].deadline == 0 || s.p.now <= s.c.slots.cold[t].deadline || s.c.slots.hot[t].direction == INCOMING
    ensures var w := SweepClient(s).c.slots;
            t < |w.hot| == |w.cold| && w.hot[t] == s.c.slots.hot[t] && w.cold[t] == s.c.slots.cold[t]
  {
    hide EntryOk, NonFree, Sweep;
    SweepSpares(s, 0, 0, t);
  }

  // ---- the first overdue entry ----

  lemma {:induction false} SweepTo(s: Site, i: nat, found: nat, f: nat)
    requires Consistent(s.c.slots) && i <= f < |s.c.slots.hot| && found == NonFree(s.c.slots.hot[..i])
    requires Overdue(s.c.slots, s.p.now, f)
    requires forall t :: i <= t < f ==> !Overdue(s.c.slots, s.p.now, t)
    ensures Sweep(s, i, found) == Sweep(Timeout(s, f), f + 1, NonFree(s.c.slots.hot[..f]) + 1)
    decreases f - i
  {
    hide EntryOk, Timeout, NonFree;
    var hot := s.c.slots.hot;
    NonFreeSplit(hot, i);
    SomeInUse(hot[i..], f - i);
    if i < f {
      assert !Overdue(s.c.slots, s.p.now, i);
      NonFreeNext(hot, i);
      SweepTo(s, i + 1, if hot[i].state == Free then found else found + 1, f);
    }
  }

  lemma {:induction false} NonFreeSplit(hot: seq<Hot>, i: nat)
    requires i <= |hot|
    ensures NonFree(hot) == NonFree(hot[..i]) + NonFree(hot[i..])
  {
    if i > 0 {
      NonFreeSplit(hot[1..], i - 1);
      assert hot[..i][1..] == hot[1..][..i - 1] && hot[1..][i - 1..] == hot[i..];
    }
  }

  lemma NonFreeNext(hot: seq<Hot>, i: nat)
    requires i < |hot|
    ensures NonFree(hot[..i + 1]) == NonFree(hot[..i]) + (if hot[i].state == Free then 0 else 1)
  {
    NonFreeSplit(hot[..i + 1], i);
    assert hot[..i + 1][..i] == hot[..i] && hot[..i + 1][i..] == [hot[i]];
  }

  lemma SomeInUse(hot: seq<Hot>, t: nat)
    requires t < |hot| && hot[t].state != Free
    ensures NonFree(hot) > 0
  {
    CountDecides(hot);
  }

  /** The first overdue entry is always reached. With a retry left and room in the ring it is sent again: its new deadline
      is 30 seconds from now and it counts one retry more. Otherwise it is freed and its reference given up. */
  lemma FirstOverdue(s: Site, f: nat)
    requires Consistent(s.c.slots) && s.c.state == Active && f < |s.c.slots.hot| && Overdue(s.c.slots, s.p.now, f)
    requires forall t :: 0 <= t < f ==> !Overdue(s.c.slots, s.p.now, t)
    ensures var v, found := s.c.slots, NonFree(s.c.slots.hot[..f]); var e, cold := v.hot[f], v.cold[f];
            && SweepClient(s) == Sweep(Timeout(s, f), f + 1, found + 1)
            && (if cold.dupCount < 3 && !Full(s.c) then
                  var w := SweepClient(s).c.slots;
                  f < |w.hot| == |w.cold| && w.hot[f] == e && w.cold[f] == Cold(s.p.now + 30000, cold.qos, cold.dupCount + 1)
                else
                  var r := Timeout(s, f);
                  && r.p == Release(s.p, e.msgIdx) && r.c == s.c.(slots := r.c.slots)
                  && r.c.slots.hot == v.hot[f := e.(state := Free, msgIdx := INVALID)] && r.c.slots.count == v.count - 1)
  {
    hide EntryOk, NonFree, Timeout, Sweep, EgressFlush, PublishSeg, Release;
    var v := s.c.slots;
    assert v.hot[..0] == [];
    SomeInUse(v.hot, f);
    NoneIsZero();
    SweepTo(s, 0, 0, f);
    TimeoutCases(s, f);
    if v.cold[f].dupCount < 3 && !Full(s.c) {
      FlushKeepsEntries(Resent(s, f));
      Receipts.TimeoutDrifts(s, f);
      Receipts.DriftReceives(v, Timeout(s, f).c.slots, 1);
      SweepSpares(Timeout(s, f), f + 1, NonFree(v.hot[..f]) + 1, f);
    }
  }

  lemma NoneIsZero()
    ensures NonFree([]) == 0
  {
  }

  // ---- how far a sweep gets ----

  /** No flush takes a slot: a write is in flight, or no message waits for its first send. */
  predicate Settled(c: Client) {
    c.writing || forall k :: 0 <= k < |c.queue| ==> !NeedsId(c.queue[k])
  }

  lemma {:induction false} PreCleanSettled(s: Site)
    requires forall k :: 0 <= k < |s.c.queue| ==> !NeedsId(s.c.queue[k])
    ensures forall k :: 0 <= k < |PreClean(s).c.queue| ==> !NeedsId(PreClean(s).c.queue[k])
    decreases |s.c.queue|
  {
    hide NeedsId;
    if s.c.queue != [] && Unsendable(s.c.queue[0], s.c.generation) {
      assert forall k :: 0 <= k < |s.c.queue[1..]| ==> s.c.queue[1..][k] == s.c.queue[k + 1];
      PreCleanSettled(DiscardHead(s));
    }
  }

  lemma {:induction false} GatherSettled(p: Pools, c: Client, i: nat)
    requires Shaped(c.slots) && forall k :: 0 <= k < |c.queue| ==> !NeedsId(c.queue[k])
    ensures Gather(p, c, i).c == c
    decreases EGRESS_BATCH_MAX - i
  {
    hide NeedsId, Joins, Alloc;
    if i < EGRESS_BATCH_MAX && i < |c.queue| && Joins(p, c, i) {
      GatherSettled(p, c, i + 1);
    }
  }

  lemma FlushSettled(s: Site)
    requires Shaped(s.c.slots) && Settled(s.c)
    ensures var r := EgressFlush(s).site;
            && Settled(r.c) && |r.c.queue| <= |s.c.queue|
            && r.c == s.c.(queue := r.c.queue, writing := r.c.writing, batch := r.c.batch) && r.p.now == s.p.now
  {
    hide NeedsId, PreClean, Gather, Offer, Shaped;
    FlushClock(s);
    PreCleanShape(s);
    if !s.c.writing {
      PreCleanSettled(s);
      GatherSettled(PreClean(s).p, PreClean(s).c, 0);
    }
  }

  /** Room in the ring for every entry from slot i on. */
  predicate Room(c: Client, i: nat)
    requires i <= |c.slots.hot|
  {
    |c.queue| + NonFree(c.slots.hot[i..]) <= c.capacity
  }

  /** Entries from slot i up to slot t in use, the spent ones counted twice: finding one raises the sweep's count, and giving
      one up lowers its bound. */
  function Cost(v: Slots, now: int, i: nat, t: nat): nat
    requires t <= |v.hot| == |v.cold|
    decreases t - i
  {
    if i >= t then 0
    else (if v.hot[i].state == Free then 0 else if Spent(v, now, i) then 2 else 1) + Cost(v, now, i + 1, t)
  }

  lemma {:induction false} CostSame(v: Slots, w: Slots, now: int, i: nat, t: nat)
    requires t <= |v.hot| == |v.cold| == |w.hot| == |w.cold|
    requires forall k :: i <= k < t ==> w.hot[k] == v.hot[k] && w.cold[k] == v.cold[k]
    ensures Cost(w, now, i, t) == Cost(v, now, i, t)
    decreases t - i
  {
    if i < t {
      CostSame(v, w, now, i + 1, t);
    }
  }

  /** What a sweep makes of an overdue entry with room in the ring. */
  function Acted(v: Slots, now: int, t: nat): Slots
    requires t < |v.hot| == |v.cold|
  {
    var e, cold := v.hot[t], v.cold[t];
    if cold.dupCount >= 3 then v.(hot := v.hot[t := e.(state := Free, msgIdx := INVALID)], count := v.count - 1)
    else v.(cold := v.cold[t := Cold(now + 30000, cold.qos, cold.dupCount + 1)])
  }

  lemma TimeoutSettled(s: Site, t: nat)
    requires Consistent(s.c.slots) && s.c.state == Active && Settled(s.c)
    requires t < |s.c.slots.hot| && Overdue(s.c.slots, s.p.now, t) && |s.c.queue| < s.c.capacity
    ensures var r := Timeout(s, t);
            && r.c.slots == Acted(s.c.slots, s.p.now, t) && Consistent(r.c.slots) && Settled(r.c) && |r.c.queue| <= |s.c.queue| + 1
            && r.c.state == Active && r.c.capacity == s.c.capacity && r.p.now == s.p.now
  {
    hide NonFree, EgressFlush, Timeout, Release;
    TimeoutCases(s, t);
    CountPositive(s.c.slots, t);
    assert EntryOk(s.c.slots.hot, t);
    if s.c.slots.cold[t].dupCount < 3 {
      var x := Resent(s, t);
      assert Settled(x.c);
      FlushSettled(x);
    } else {
      FreeSlotKeeps(s.c.slots, t);
      ReleaseClock(s.p, s.c.slots.hot[t].msgIdx);
    }
  }

  lemma ActedOne(v: Slots, now: int, i: nat, t: nat)
    requires i < |v.hot| == |v.cold| && t < |v.hot| && Overdue(v, now, i)
    ensures var w := Acted(v, now, i);
            && |w.hot| == |w.cold| == |v.hot| && w.count == v.count - (if Spent(v, now, i) then 1 else 0)
            && w.hot[i + 1..] == v.hot[i + 1..] && forall k :: 0 <= k < |v.hot| && k != i ==> w.hot[k] == v.hot[k] && w.cold[k] == v.cold[k]
    ensures var w := Acted(v, now, i);
            t != i ==> (Overdue(w, now, t) <==> Overdue(v, now, t)) && Acted(w, now, t).hot[t] == Acted(v, now, t).hot[t] && Acted(w, now, t).cold[t] == Acted(v, now, t).cold[t]
  {
  }

  lemma CountPositive(v: Slots, t: nat)
    requires Consistent(v) && t < |v.hot| && v.hot[t].state != Free
    ensures v.count > 0
  {
    SomeInUse(v.hot, t);
  }

  lemma ReleaseClock(p: Pools, m: u32)
    ensures Release(p, m).now == p.now
  {
  }

  /** The part of the ring and of the slots that is left behind slot i. */
  lemma RoomNext(c: Client, i: nat)
    requires i < |c.slots.hot| && Room(c, i)
    ensures c.slots.hot[i].state != Free ==> |c.queue| < c.capacity
    ensures forall d: Client ::
              && d.capacity == c.capacity && |d.slots.hot| == |c.slots.hot| && d.slots.hot[i + 1..] == c.slots.hot[i + 1..]
              && |d.queue| <= |c.queue| + (if c.slots.hot[i].state == Free then 0 else 1)
              ==> Room(d, i + 1)
  {
    assert c.slots.hot[i..][1..] == c.slots.hot[i + 1..];
  }

  /** Behind the loop everything stays, free slots too. */
  lemma {:induction false} SweepBehind(s: Site, i: nat, found: nat, t: nat)
    requires Consistent(s.c.slots) && s.c.state == Active && Settled(s.c) && t < i <= |s.c.slots.hot| && Room(s.c, i)
    ensures var w := Sweep(s, i, found).c.slots;
            t < |w.hot| == |w.cold| && w.hot[t] == s.c.slots.hot[t] && w.cold[t] == s.c.slots.cold[t]
    decreases |s.c.slots.hot| - i
  {
    hide EntryOk, NonFree, Timeout, Settled, Room, Acted;
    if i < |s.c.slots.hot| && found < s.c.slots.count {
      RoomNext(s.c, i);
      if s.c.slots.hot[i].state == Free {
        SweepBehind(s, i + 1, found, t);
      } else if Expired(s, i) {
        ActedOne(s.c.slots, s.p.now, i, t);
        TimeoutSettled(s, i);
        SweepBehind(Timeout(s, i), i + 1, found + 1, t);
      } else {
        SweepBehind(s, i + 1, found + 1, t);
      }
    }
  }

  /** What the loop makes of entry t from slot i on. */
  ghost predicate Reached(s: Site, i: nat, found: nat, t: nat)
    requires Shaped(s.c.slots) && t < |s.c.slots.hot|
  {
    var v, w := s.c.slots, Sweep(s, i, found).c.slots;
    var x := if found + Cost(v, s.p.now, i, t) < v.count then Acted(v, s.p.now, t) else v;
    t < |w.hot| == |w.cold| && w.hot[t] == x.hot[t] && w.cold[t] == x.cold[t]
  }

  lemma {:induction false} SweepReaches(s: Site, i: nat, found: nat, t: nat)
    requires Consistent(s.c.slots) && s.c.state == Active && Settled(s.c) && i <= t < |s.c.slots.hot| && Room(s.c, i)
    requires Overdue(s.c.slots, s.p.now, t)
    ensures Reached(s, i, found, t)
    decreases |s.c.slots.hot| - i
  {
    hide EntryOk, NonFree, Timeout, Settled, Room, Acted, Reached;
    if found >= s.c.slots.count {
      ReachedNot(s, i, found, t);
    } else {
      RoomNext(s.c, i);
      if i == t {
        TimeoutSettled(s, i);
        ActedOne(s.c.slots, s.p.now, i, t);
        SweepBehind(Timeout(s, i), i + 1, found + 1, t);
        ReachedHere(s, found, t);
      } else if s.c.slots.hot[i].state != Free && Expired(s, i) {
        TimeoutSettled(s, i);
        ActedOne(s.c.slots, s.p.now, i, t);
        SweepReaches(Timeout(s, i), i + 1, found + 1, t);
        ReachedPast(s, i, found, t);
      } else {
        var next := if s.c.slots.hot[i].state == Free then found else found + 1;
        SweepReaches(s, i + 1, next, t);
        ReachedNext(s, i, found, t);
      }
    }
  }

  lemma ReachedNot(s: Site, i: nat, found: nat, t: nat)
    requires Shaped(s.c.slots) && t < |s.c.slots.hot| && found >= s.c.slots.count
    ensures Reached(s, i, found, t)
  {
  }

  lemma ReachedHere(s: Site, found: nat, t: nat)
    requires Shaped(s.c.slots) && t < |s.c.slots.hot| && found < s.c.slots.count && Overdue(s.c.slots, s.p.now, t)
    requires Timeout(s, t).c.slots == Acted(s.c.slots, s.p.now, t)
    requires var w, x := Sweep(Timeout(s, t), t + 1, found + 1).c.slots, Timeout(s, t).c.slots;
             t < |w.hot| == |w.cold| && |x.cold| > t && w.hot[t] == x.hot[t] && w.cold[t] == x.cold[t]
    ensures Reached(s, t, found, t)
  {
    hide Timeout, Acted;
    assert Sweep(s, t, found) == Sweep(Timeout(s, t), t + 1, found + 1);
  }

  lemma ReachedPast(s: Site, i: nat, found: nat, t: nat)
    requires Consistent(s.c.slots) && i < t < |s.c.slots.hot| && found < s.c.slots.count && Overdue(s.c.slots, s.p.now, i)
    requires Timeout(s, i).c.slots == Acted(s.c.slots, s.p.now, i) && Timeout(s, i).p.now == s.p.now
    requires Reached(Timeout(s, i), i + 1, found + 1, t)
    ensures Reached(s, i, found, t)
  {
    hide Timeout, Acted, EntryOk, NonFree, Cost, Sweep;
    PastPick(s.c.slots, s.p.now, i, t, found);
    SweepPast(s, i, found);
  }

  lemma SweepPast(s: Site, i: nat, found: nat)
    requires Shaped(s.c.slots) && i < |s.c.slots.hot| && found < s.c.slots.count && Overdue(s.c.slots, s.p.now, i)
    ensures Sweep(s, i, found) == Sweep(Timeout(s, i), i + 1, found + 1)
  {
    hide Timeout;
  }

  /** Giving up entry i, or sending it again, moves what is left of the sweep's way to t by its cost. */
  lemma PastPick(v: Slots, now: int, i: nat, t: nat, found: nat)
    requires i < t < |v.hot| == |v.cold| && Overdue(v, now, i)
    ensures var w := Acted(v, now, i);
            && t < |w.hot| == |w.cold| && w.hot[t] == v.hot[t] && w.cold[t] == v.cold[t]
            && (found + 1 + Cost(w, now, i + 1, t) < w.count <==> found + Cost(v, now, i, t) < v.count)
            && Acted(w, now, t).hot[t] == Acted(v, now, t).hot[t] && Acted(w, now, t).cold[t] == Acted(v, now, t).cold[t]
  {
    hide Acted, Cost;
    ActedOne(v, now, i, t);
    CostSame(v, Acted(v, now, i), now, i + 1, t);
    CostNext(v, now, i, t);
  }

  lemma CostNext(v: Slots, now: int, i: nat, t: nat)
    requires i < t <= |v.hot| == |v.cold|
    ensures Cost(v, now, i, t) == (if v.hot[i].state == Free then 0 else if Spent(v, now, i) then 2 else 1) + Cost(v, now, i + 1, t)
  {
  }

  lemma ReachedNext(s: Site, i: nat, found: nat, t: nat)
    requires Shaped(s.c.slots) && i < t < |s.c.slots.hot| && found < s.c.slots.count && !Overdue(s.c.slots, s.p.now, i)
    requires Reached(s, i + 1, if s.c.slots.hot[i].state == Free then found else found + 1, t)
    ensures Reached(s, i, found, t)
  {
    hide Timeout, Acted, Cost;
    CostNext(s.c.slots, s.p.now, i, t);
  }

  /** The bound of the sweep is the number of entries in use, which falls with each entry it gives up, so it can end too
      early. While no message waits for its first send and the ring has room for a retry of each entry, an overdue entry is
      dealt with if and only if the entries in use before it, the spent ones counted twice, are fewer than all; otherwise it
      stays as it is until the next sweep. */
  lemma OverdueReachedIff(s: Site, t: nat)
    requires Consistent(s.c.slots) && s.c.state == Active && t < |s.c.slots.hot| && Overdue(s.c.slots, s.p.now, t)
    requires Settled(s.c) && |s.c.queue| + s.c.slots.count <= s.c.capacity
    ensures var v, w := s.c.slots, SweepClient(s).c.slots; var e, cold := v.hot[t], v.cold[t];
            && t < |w.hot| == |w.cold|
            && (if Cost(v, s.p.now, 0, t) < v.count then
                  if cold.dupCount >= 3 then w.hot[t] == e.(state := Free, msgIdx := INVALID) && w.cold[t] == cold
                  else w.hot[t] == e && w.cold[t] == Cold(s.p.now + 30000, cold.qos, cold.dupCount + 1)
                else w.hot[t] == e && w.cold[t] == cold)
  {
    hide EntryOk, NonFree, Sweep, Settled;
    assert s.c.slots.hot[0..] == s.c.slots.hot;
    CountPositive(s.c.slots, t);
    SweepReaches(s, 0, 0, t);
  }

  lemma {:induction false} CostUnspent(v: Slots, now: int, i: nat, t: nat)
    requires i <= t <= |v.hot| == |v.cold| && forall k :: i <= k < t ==> !Spent(v, now, k)
    ensures Cost(v, now, i, t) == NonFree(v.hot[i..t])
    decreases t - i
  {
    if i < t {
      assert v.hot[i..t][1..] == v.hot[i + 1..t];
      CostUnspent(v, now, i + 1, t);
    }
  }

  /** With nothing spent, every overdue entry is sent again. */
  lemma AllResent(s: Site, t: nat)
    requires Consistent(s.c.slots) && s.c.state == Active && t < |s.c.slots.hot| && Overdue(s.c.slots, s.p.now, t)
    requires Settled(s.c) && |s.c.queue| + s.c.slots.count <= s.c.capacity
    requires forall k :: 0 <= k < |s.c.slots.hot| ==> !Spent(s.c.slots, s.p.now, k)
    ensures var v, w := s.c.slots, SweepClient(s).c.slots;
            && t < |w.hot| == |w.cold| && !Spent(v, s.p.now, t)
            && w.hot[t] == v.hot[t] && w.cold[t] == Cold(s.p.now + 30000, v.cold[t].qos, v.cold[t].dupCount + 1)
  {
    hide EntryOk, Sweep, Settled, NonFree;
    var hot := s.c.slots.hot;
    assert !Spent(s.c.slots, s.p.now, t);
    OverdueReachedIff(s, t);
    CostUnspent(s.c.slots, s.p.now, 0, t);
    assert hot[0..t] == hot[..t];
    NonFreeSplit(hot, t);
    SomeInUse(hot[t..], 0);
  }

  /** Two overdue entries out of retries: the first is given up, and the sweep ends before the second. */
  lemma SecondSpentIsLeft(s: Site, first: nat, t: nat)
    requires Consistent(s.c.slots) && s.c.state == Active && Settled(s.c) && |s.c.queue| + 2 <= s.c.capacity
    requires first < t < |s.c.slots.hot| && Spent(s.c.slots, s.p.now, first) && Spent(s.c.slots, s.p.now, t)
    requires s.c.slots.count == 2
    ensures var v, w := s.c.slots, SweepClient(s).c.slots;
            first < t < |w.hot| == |w.cold| && w.hot[first].state == Free && w.hot[t] == v.hot[t] && w.cold[t] == v.cold[t]
  {
    hide EntryOk, Sweep, Settled, NonFree;
    SpentCosts(s.c.slots, s.p.now, 0, first, t);
    FirstCosts(s.c.slots, s.p.now, first, t);
    OverdueReachedIff(s, first);
    OverdueReachedIff(s, t);
  }

  lemma {:induction false} SpentCosts(v: Slots, now: int, i: nat, first: nat, t: nat)
    requires i <= first < t <= |v.hot| == |v.cold| && Spent(v, now, first)
    ensures Cost(v, now, i, t) >= 2
    decreases t - i
  {
    if i < first {
      SpentCosts(v, now, i + 1, first, t);
    }
  }

  lemma FirstCosts(v: Slots, now: int, first: nat, t: nat)
    requires Consistent(v) && first < t < |v.hot| && v.count == 2 && v.hot[first].state != Free && v.hot[t].state != Free
    ensures Cost(v, now, 0, first) == 0
  {
    hide EntryOk, NonFree;
    forall k | 0 <= k < first ensures v.hot[k].state == Free {
      if v.hot[k].state != Free {
        ThreeInUse(v.hot, k, first, t);
      }
    }
    FreeCostsNothing(v, now, 0, first);
  }

  lemma ThreeInUse(hot: seq<Hot>, i: nat, j: nat, k: nat)
    requires i < j < k < |hot| && hot[i].state != Free && hot[j].state != Free && hot[k].state != Free
    ensures NonFree(hot) >= 3
  {
    hide NonFree;
    NonFreeSplit(hot, i + 1);
    SomeInUse(hot[..i + 1], i);
    var rest := hot[i + 1..];
    NonFreeSplit(rest, j - i);
    SomeInUse(rest[..j - i], j - i - 1);
    SomeInUse(rest[j - i..], k - j - 1);
  }

  lemma {:induction false} FreeCostsNothing(v: Slots, now: int, i: nat, t: nat)
    requires t <= |v.hot| == |v.cold| && forall k :: i <= k < t ==> v.hot[k].state == Free
    ensures Cost(v, now, i, t) == 0
    decreases t - i
  {
    if i < t {
      FreeCostsNothing(v, now, i + 1, t);
    }
  }

  // ---- all clients ----

  /** fsm_sweep_all_timeouts from slot i on. */
  ghost function SweepFrom(b: Broker, i: nat): Broker
    requires AllShaped(b.clients)
    decreases |b.clients| - i
  {
    if i >= |b.clients| then b
    else
      SweepShape(b, i);
      SweepFrom(Put(b, i, SweepClient(At(b, i))), i + 1)
  }

  lemma SweepShape(b: Broker, i: nat)
    requires AllShaped(b.clients) && i < |b.clients|
    ensures AllShaped(Put(b, i, SweepClient(At(b, i))).clients)
  {
  }

  lemma {:induction false} SweepClock(s: Site, i: nat, found: nat)
    requires Shaped(s.c.slots)
    ensures Sweep(s, i, found).p.now == s.p.now
    decreases |s.c.slots.hot| - i
  {
    hide Timeout;
    if i < |s.c.slots.hot| && found < s.c.slots.count {
      if s.c.slots.hot[i].state != Free && Expired(s, i) {
        TimeoutClock(s, i);
        SweepClock(Timeout(s, i), i + 1, found + 1);
      } else {
        SweepClock(s, i + 1, if s.c.slots.hot[i].state == Free then found else found + 1);
      }
    }
  }

  lemma TimeoutClock(s: Site, slot: nat)
    requires Shaped(s.c.slots) && slot < |s.c.slots.hot|
    ensures Timeout(s, slot).p.now == s.p.now
  {
    hide EgressFlush, Timeout, Release, PublishSeg;
    TimeoutCases(s, slot);
    if s.c.slots.cold[slot].dupCount < 3 && !Full(s.c) {
      FlushClock(Resent(s, slot));
    } else {
      ReleaseClock(s.p, s.c.slots.hot[slot].msgIdx);
    }
  }

  /** The sweep over all slots sweeps each client once, at the time it began with, whatever it did to the pools before. */
  lemma {:induction false} EachIsSwept(b: Broker, i: nat, j: nat) returns (p: Pools)
    requires AllShaped(b.clients) && j < |b.clients|
    ensures var r := SweepFrom(b, i); |r.clients| == |b.clients| && r == b.(p := r.p, clients := r.clients)
    ensures p.now == b.p.now && Shaped(b.clients[j].slots)
    ensures SweepFrom(b, i).clients[j] == if j < i then b.clients[j] else SweepClient(Site(p, b.clients[j])).c
    decreases |b.clients| - i
  {
    hide SweepClient, Shaped;
    p := b.p;
    if i < |b.clients| {
      SweepShape(b, i);
      var next := Put(b, i, SweepClient(At(b, i)));
      p := EachIsSwept(next, i + 1, j);
      SweepClientClock(At(b, i));
      if i == j {
        p := b.p;
      }
    }
  }

  lemma SweepClientClock(s: Site)
    requires Shaped(s.c.slots)
    ensures SweepClient(s).p.now == s.p.now
  {
    SweepClock(s, 0, 0);
  }
}
