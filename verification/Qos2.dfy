/** The publisher side of the QoS ceremonies (src/broker/mqtt_fsm.h), and how far its QoS 2 half
    is the exactly-once receiver of section 4.3.3 of MQTT Version 3.1.1. */
module Qos2 {
  import opened Common
  import opened Inflight
  import opened InflightTable

  const INFLIGHT_TIMEOUT_MS := 30000 // LLMQ_INFLIGHT_TIMEOUT_MS

  datatype Reply = Silent | Puback(id: u16) | Pubrec(id: u16) | Pubcomp(id: u16)
  datatype Outcome = Outcome(slots: Slots, forward: bool, reply: Reply)

  /** fsm_pub_received: forward says whether the PUBLISH goes on to fan-out. */
  function PubReceived(v: Slots, qos: byte, id: u16, now: int): Outcome
    requires Shaped(v)
  {
    if qos == 0 then Outcome(v, true, Silent)
    else if qos == 1 then Outcome(v, true, Puback(id))
    else if qos == 2 then
      var existing := Find(v.hot, id);
      if existing >= 0 && existing < |v.hot| && v.hot[existing].direction == INCOMING then Outcome(v, false, Pubrec(id))
      else
        var t := Track(v, id, now + INFLIGHT_TIMEOUT_MS);
        if t.slot < 0 then Outcome(t.slots, false, Silent) else Outcome(t.slots, true, Pubrec(id))
    else Outcome(v, false, Silent)
  }

  /** fsm_pub_pubrel_received */
  function PubrelReceived(v: Slots, id: u16): Outcome
    requires v.hot != []
  {
    var s := Find(v.hot, id);
    if 0 <= s < |v.hot| && v.hot[s].state == WaitPubrel && v.hot[s].direction == INCOMING
    then Outcome(FreeSlot(v, s), false, Pubcomp(id))
    else Outcome(v, false, Pubcomp(id))
  }

  method OnPublish(t: Table, qos: byte, id: u16, now: int) returns (forward: bool, reply: Reply)
    requires t.Valid()
    modifies t.Repr()
    ensures t.Valid()
    ensures Outcome(t.View(), forward, reply) == PubReceived(old(t.View()), qos, id, now)
  {
    match qos {
      case 0 => return true, Silent;
      case 1 => return true, Puback(id);
      case 2 =>
        var existing := t.Lookup(id);
        if existing >= 0 && t.hot[existing].direction == INCOMING {
          return false, Pubrec(id);
        }
        var slot := t.TrackIncoming(id, now + INFLIGHT_TIMEOUT_MS);
        if slot < 0 {
          return false, Silent;
        }
        return true, Pubrec(id);
      case _ => return false, Silent;
    }
  }

  method OnPubrel(t: Table, id: u16) returns (reply: Reply)
    requires t.Valid()
    modifies t.Repr()
    ensures t.Valid()
    ensures Outcome(t.View(), false, reply) == PubrelReceived(old(t.View()), id)
  {
    var slot := t.Lookup(id);
    if slot >= 0 && t.hot[slot].state == WaitPubrel && t.hot[slot].direction == INCOMING {
      t.Release(slot);
    }
    return Pubcomp(id);
  }

  /** QoS 0 and 1 need no receipt: whatever the table looks like, they go to fan-out and leave it alone, QoS 0 without an
      answer and QoS 1 answered with PUBACK and its own id. There is no QoS 3: it is neither passed on nor answered. */
  lemma WithoutReceipt(v: Slots, qos: byte, id: u16, now: int)
    requires Shaped(v) && qos != 2
    ensures var o := PubReceived(v, qos, id, now);
            && o.slots == v
            && (o.forward <==> qos <= 1)
            && (o.reply == Puback(id) <==> qos == 1)
            && (o.reply == Silent <==> qos != 1)
  {
  }

  // ---- the reference receiver ----

  /** The id of a received PUBLISH whose PUBREL has not arrived. */
  predicate InReceipt(v: Slots, id: u16) {
    TrackedAt(v.hot, id, 0) < |v.hot|
  }

  /** An outgoing entry with the same id sits in the slot the direct lookup reads. */
  predicate Shadowed(v: Slots, id: u16)
    requires v.hot != []
  {
    FindDirect(v.hot, id) >= 0 && v.hot[Direct(id, |v.hot|)].direction == OUTGOING
  }

  ghost function Receiving(v: Slots): set<u16> {
    set s | 0 <= s < |v.hot| && Tracked(v.hot[s]) :: v.hot[s].packetId
  }

  lemma InReceiptIff(v: Slots, id: u16)
    ensures InReceipt(v, id) <==> id in Receiving(v)
  {
    if id in Receiving(v) {
      var s :| 0 <= s < |v.hot| && Tracked(v.hot[s]) && v.hot[s].packetId == id;
      assert TrackedAt(v.hot, id, 0) <= s;
    }
  }

  /** Replacing one entry changes the receipts in progress by that entry's id only. */
  lemma ReceivingUpdate(v: Slots, w: Slots, s: nat, e: Hot)
    requires Consistent(v) && s < |v.hot| && w.hot == v.hot[s := e]
    ensures Receiving(w) == (Receiving(v) - (if Tracked(v.hot[s]) then {v.hot[s].packetId} else {}))
                            + (if Tracked(e) then {e.packetId} else {})
  {
    assert forall k :: 0 <= k < |v.hot| && k != s ==> w.hot[k] == v.hot[k];
    assert w.hot[s] == e;
  }

  /** The general lookup finds the receipt in progress exactly when no shadow hides it. */
  lemma LookupSeesReceipt(v: Slots, id: u16)
    requires Consistent(v) && id != 0
    ensures var s := Find(v.hot, id);
            (0 <= s < |v.hot| && v.hot[s].direction == INCOMING) <==> InReceipt(v, id) && !Shadowed(v, id)
    ensures InReceipt(v, id) && !Shadowed(v, id) ==> Find(v.hot, id) == TrackedAt(v.hot, id, 0)
  {
    var d := FindDirect(v.hot, id);
    if d >= 0 {
      assert EntryOk(v.hot, d);
      if Tracked(v.hot[d]) {
        assert TrackedAt(v.hot, id, 0) == d;
      }
    }
  }

  lemma TrackReceives(v: Slots, id: u16, deadline: int)
    requires Consistent(v)
    ensures var t := Track(v, id, deadline);
            Receiving(t.slots) == if t.slot >= 0 then Receiving(v) + {id} else Receiving(v)
  {
    TrackKeeps(v, id, deadline);
    InReceiptIff(v, id);
    var t := Track(v, id, deadline);
    if t.slot >= 0 && t.slots != v {
      ReceivingUpdate(v, t.slots, t.slot, t.slots.hot[t.slot]);
    }
  }

  /** Whatever the table looks like, a QoS 2 PUBLISH is let through exactly when there is room and
      the id is new or shadowed; it records the id and touches no other. */
  lemma PublishExact(v: Slots, id: u16, now: int)
    requires Consistent(v) && id != 0
    ensures var o := PubReceived(v, 2, id, now);
            && Consistent(o.slots)
            && (o.forward <==> v.count < |v.hot| && (!InReceipt(v, id) || Shadowed(v, id)))
            && Receiving(o.slots) == (if o.forward then Receiving(v) + {id} else Receiving(v))
            && (o.reply == Pubrec(id) <==> o.forward || (InReceipt(v, id) && !Shadowed(v, id)))
  {
    LookupSeesReceipt(v, id);
    TrackKeeps(v, id, now + INFLIGHT_TIMEOUT_MS);
    TrackReceives(v, id, now + INFLIGHT_TIMEOUT_MS);
  }

  /** PUBREL ends exactly its own id, unless a shadow hides it; then it ends nothing. */
  lemma PubrelExact(v: Slots, id: u16)
    requires Consistent(v) && id != 0
    ensures var o := PubrelReceived(v, id);
            && Consistent(o.slots)
            && o.reply == Pubcomp(id)
            && Receiving(o.slots) == (if Shadowed(v, id) then Receiving(v) else Receiving(v) - {id})
            && (o.slots != v <==> InReceipt(v, id) && !Shadowed(v, id))
  {
    LookupSeesReceipt(v, id);
    if InReceipt(v, id) && !Shadowed(v, id) {
      var s := TrackedAt(v.hot, id, 0);
      assert EntryOk(v.hot, s);
      FreeSlotKeeps(v, s);
      ReceivingUpdate(v, FreeSlot(v, s), s, FreeSlot(v, s).hot[s]);
    } else {
      InReceiptIff(v, id);
    }
  }

  /** Packet id 0, which no parser lets through, concerns no other id. */
  lemma ZeroExact(v: Slots, now: int)
    requires Consistent(v)
    ensures var w := PubReceived(v, 2, 0, now).slots; Consistent(w) && Receiving(w) - {0} == Receiving(v) - {0}
    ensures PubrelReceived(v, 0).slots == v
  {
    TrackKeeps(v, 0, now + INFLIGHT_TIMEOUT_MS);
    TrackReceives(v, 0, now + INFLIGHT_TIMEOUT_MS);
  }

  // ---- the undo of a failed write ----

  /** The fatal-error walk undoes a first send by the direction-blind direct lookup. */
  function UndoOne(v: Slots, id: u16): (w: Slots)
    requires v.hot != []
    ensures |w.hot| == |v.hot| && (Shaped(v) ==> Shaped(w))
  {
    var s := FindDirect(v.hot, id);
    if 0 <= s < |v.hot| then FreeSlot(v, s) else v
  }

  /** The undo of all first sends of a batch, by their packet ids in order. */
  function Undo(v: Slots, ids: seq<u16>): (w: Slots)
    requires v.hot != []
    ensures |w.hot| == |v.hot| && (Shaped(v) ==> Shaped(w))
    decreases |ids|
  {
    if ids == [] then v else Undo(UndoOne(v, ids[0]), ids[1..])
  }

  /** The receipt of this id sits in the slot that direct indexing reads. */
  predicate SitsDirect(v: Slots, id: u16)
    requires v.hot != []
  {
    id != 0 && Tracked(v.hot[Direct(id, |v.hot|)]) && v.hot[Direct(id, |v.hot|)].packetId == id
  }

  lemma UndoOneExact(v: Slots, x: u16, id: u16)
    requires Consistent(v) && id != 0
    ensures Consistent(UndoOne(v, x))
    ensures InReceipt(UndoOne(v, x), id) <==> InReceipt(v, id) && !(x == id && SitsDirect(v, id))
    ensures SitsDirect(UndoOne(v, x), id) <==> SitsDirect(v, id) && x != id
  {
    InReceiptIff(v, id);
    InReceiptIff(UndoOne(v, x), id);
    var s := FindDirect(v.hot, x);
    if s >= 0 {
      FreeSlotKeeps(v, s);
      ReceivingUpdate(v, FreeSlot(v, s), s, FreeSlot(v, s).hot[s]);
      assert SitsDirect(v, id) ==> id in Receiving(v);
    }
  }

  /** A failed write erases a receipt if and only if the batch holds a first send with the receipt's id and the receipt
      sits in the slot that direct indexing reads. */
  lemma {:induction false} UndoLosesIff(v: Slots, ids: seq<u16>, id: u16)
    requires Consistent(v) && id != 0
    ensures Consistent(Undo(v, ids))
    ensures InReceipt(Undo(v, ids), id) <==> InReceipt(v, id) && !(id in ids && SitsDirect(v, id))
    decreases |ids|
  {
    if ids != [] {
      UndoOneExact(v, ids[0], id);
      UndoLosesIff(UndoOne(v, ids[0]), ids[1..], id);
    }
  }

  lemma DirectIsReceipt(v: Slots, id: u16)
    requires Consistent(v) && SitsDirect(v, id)
    ensures InReceipt(v, id)
  {
    assert TrackedAt(v.hot, id, 0) <= Direct(id, |v.hot|);
  }

  // ---- whole runs ----

  /** What can happen to the table of a connected client. */
  datatype Event =
    | Publish(id: u16, now: int)                    // a QoS 2 PUBLISH arrives
    | Pubrel(id: u16)
    | Send(qos: byte, msgIdx: u32, deadline: int)   // an outgoing QoS 1/2 message takes a slot
    | Retry(slot: nat, cold: Cold)                  // an outgoing entry is sent again
    | Done(slot: nat)                               // an outgoing entry is acknowledged or given up
    | WriteFailed(ids: seq<u16>)                    // a write fails; these are the ids of its first sends

  predicate Possible(v: Slots, e: Event) {
    match e
    case Retry(s, _) => s < |v.hot| && Outgoing(v.hot[s])
    case Done(s) => s < |v.hot| && Outgoing(v.hot[s])
    case _ => true
  }

  function After(v: Slots, e: Event): Slots
    requires Shaped(v) && Possible(v, e)
  {
    match e
    case Publish(id, now) => PubReceived(v, 2, id, now).slots
    case Pubrel(id) => PubrelReceived(v, id).slots
    case Send(qos, m, d) => Alloc(v, qos, m, d).slots
    case Retry(s, cold) => v.(cold := v.cold[s := cold])
    case Done(s) => FreeSlot(v, s)
    case WriteFailed(ids) => Undo(v, ids)
  }

  ghost function Count(b: bool): nat { if b then 1 else 0 }

  /** A PUBLISH with this id passes the ceremony. */
  ghost predicate Passes(v: Slots, e: Event, id: u16)
    requires Shaped(v)
  {
    e.Publish? && e.id == id && PubReceived(v, 2, id, e.now).forward
  }

  /** A PUBLISH with this id is answered with PUBREC. */
  ghost predicate Answered(v: Slots, e: Event, id: u16)
    requires Shaped(v)
  {
    e.Publish? && e.id == id && PubReceived(v, 2, id, e.now).reply == Pubrec(id)
  }

  /** How often a PUBLISH with this id passes the ceremony. */
  ghost function LetThrough(v: Slots, es: seq<Event>, id: u16): nat
    requires Consistent(v) && Feasible(v, es)
    decreases es
  {
    if es == [] then 0
    else
      AfterKeeps(v, es[0]);
      Count(Passes(v, es[0], id)) + LetThrough(After(v, es[0]), es[1..], id)
  }

  /** How often that happens although the receipt of an earlier one is still open. */
  ghost function Repeated(v: Slots, es: seq<Event>, id: u16): nat
    requires Consistent(v) && Feasible(v, es)
    decreases es
  {
    if es == [] then 0
    else
      AfterKeeps(v, es[0]);
      Count(Passes(v, es[0], id) && InReceipt(v, id)) + Repeated(After(v, es[0]), es[1..], id)
  }

  /** How often a PUBREL with this id ends its receipt. */
  ghost function Ended(v: Slots, es: seq<Event>, id: u16): nat
    requires Consistent(v) && Feasible(v, es)
    decreases es
  {
    if es == [] then 0
    else
      AfterKeeps(v, es[0]);
      Count(es[0] == Pubrel(id) && InReceipt(v, id) && !InReceipt(After(v, es[0]), id)) + Ended(After(v, es[0]), es[1..], id)
  }

  /** How often a PUBREL with this id is answered with PUBCOMP and leaves its receipt open. */
  ghost function Stuck(v: Slots, es: seq<Event>, id: u16): nat
    requires Consistent(v) && Feasible(v, es)
    decreases es
  {
    if es == [] then 0
    else
      AfterKeeps(v, es[0]);
      Count(es[0] == Pubrel(id) && InReceipt(v, id) && InReceipt(After(v, es[0]), id)) + Stuck(After(v, es[0]), es[1..], id)
  }

  /** How often a failed write erases its receipt. */
  ghost function Lost(v: Slots, es: seq<Event>, id: u16): nat
    requires Consistent(v) && Feasible(v, es)
    decreases es
  {
    if es == [] then 0
    else
      AfterKeeps(v, es[0]);
      Count(es[0].WriteFailed? && InReceipt(v, id) && !InReceipt(After(v, es[0]), id)) + Lost(After(v, es[0]), es[1..], id)
  }

  ghost function Last(v: Slots, es: seq<Event>): (w: Slots)
    requires Consistent(v) && Feasible(v, es)
    ensures Consistent(w)
    decreases es
  {
    if es == [] then v else AfterKeeps(v, es[0]); Last(After(v, es[0]), es[1..])
  }

  ghost predicate Feasible(v: Slots, es: seq<Event>)
    requires Consistent(v)
    decreases es
  {
    es != [] ==> Possible(v, es[0]) && (AfterKeeps(v, es[0]); Feasible(After(v, es[0]), es[1..]))
  }

  /** What an event must meet for an id: a PUBLISH of the id does not find its own open receipt hidden by an outgoing entry
      while the table has room, a PUBREL of the id does not find it hidden at all, and a write that fails has no first send
      with the id of a receipt that sits in its direct slot. */
  ghost predicate Guard(v: Slots, e: Event, id: u16)
    requires v.hot != []
  {
    && (e.Publish? && e.id == id ==> !(InReceipt(v, id) && Shadowed(v, id) && v.count < |v.hot|))
    && (e == Pubrel(id) ==> !(InReceipt(v, id) && Shadowed(v, id)))
    && (e.WriteFailed? ==> !(id in e.ids && SitsDirect(v, id)))
  }

  ghost predicate Guarded(v: Slots, es: seq<Event>, id: u16)
    requires Consistent(v) && Feasible(v, es)
    decreases es
  {
    es != [] ==> Guard(v, es[0], id) && (AfterKeeps(v, es[0]); Guarded(After(v, es[0]), es[1..], id))
  }

  // ---- the receiver of section 4.3.3 ----

  /** Its state for one id: open from a PUBLISH that is answered to the next PUBREL, whatever the table looks like. */
  ghost predicate Opens(v: Slots, e: Event, id: u16, open: bool)
    requires Shaped(v)
  {
    if Answered(v, e, id) then true else if e == Pubrel(id) then false else open
  }

  /** The table does at every event what that receiver does: it passes on a PUBLISH exactly when the PUBLISH is answered and
      the receiver is not open, and it has a receipt exactly while the receiver is open. */
  ghost predicate Refines(v: Slots, es: seq<Event>, id: u16, open: bool)
    requires Consistent(v) && Feasible(v, es)
    decreases es
  {
    && (InReceipt(v, id) <==> open)
    && (es != [] ==>
          && (Passes(v, es[0], id) <==> Answered(v, es[0], id) && !open)
          && (AfterKeeps(v, es[0]); Refines(After(v, es[0]), es[1..], id, Opens(v, es[0], id, open))))
  }

  /** How many handshakes the publisher completes: PUBRELs, all of them answered with PUBCOMP, that find the receiver open. */
  ghost function Handshakes(v: Slots, es: seq<Event>, id: u16, open: bool): nat
    requires Consistent(v) && Feasible(v, es)
    decreases es
  {
    if es == [] then 0
    else
      AfterKeeps(v, es[0]);
      Count(es[0] == Pubrel(id) && open) + Handshakes(After(v, es[0]), es[1..], id, Opens(v, es[0], id, open))
  }

  lemma {:induction false} UndoKeeps(v: Slots, ids: seq<u16>)
    requires Consistent(v)
    ensures Consistent(Undo(v, ids))
    decreases |ids|
  {
    if ids != [] {
      UndoOneExact(v, ids[0], 1);
      UndoKeeps(UndoOne(v, ids[0]), ids[1..]);
    }
  }

  /** An event on an outgoing entry. */
  predicate Aside(e: Event) { e.Send? || e.Retry? || e.Done? }

  lemma AfterKeeps(v: Slots, e: Event)
    requires Consistent(v) && Possible(v, e)
    ensures Consistent(After(v, e))
    ensures Aside(e) ==> Receiving(After(v, e)) == Receiving(v)
  {
    match e
    case Publish(id, now) => if id == 0 { ZeroExact(v, now); } else { PublishExact(v, id, now); }
    case Pubrel(id) => if id == 0 { ZeroExact(v, 0); } else { PubrelExact(v, id); }
    case Retry(_, _) =>
    case Send(qos, m, d) =>
      AllocKeeps(v, qos, m, d);
      var r := Alloc(v, qos, m, d);
      if r.slot >= 0 {
        ReceivingUpdate(v, r.slots, r.slot, r.slots.hot[r.slot]);
      }
    case Done(s) =>
      FreeSlotKeeps(v, s);
      ReceivingUpdate(v, FreeSlot(v, s), s, FreeSlot(v, s).hot[s]);
    case WriteFailed(ids) => UndoKeeps(v, ids);
  }

  lemma PublishEvent(v: Slots, i: u16, now: int, id: u16)
    requires Consistent(v) && id != 0
    ensures var open, o := InReceipt(v, id), PubReceived(v, 2, i, now);
            && (i == id ==> (o.forward <==> v.count < |v.hot| && (!open || Shadowed(v, id))))
            && (i == id ==> (o.reply == Pubrec(id) <==> o.forward || (open && !Shadowed(v, id))))
            && (InReceipt(o.slots, id) <==> (i == id && o.forward) || open)
  {
    hide EntryOk, NonFree, PubReceived, Shadowed, InReceipt;
    var o := PubReceived(v, 2, i, now);
    InReceiptIff(v, id);
    InReceiptIff(o.slots, id);
    if i == 0 {
      ZeroExact(v, now);
      assert id in Receiving(o.slots) - {0} <==> id in Receiving(v) - {0};
    } else {
      PublishExact(v, i, now);
    }
  }

  lemma PubrelEvent(v: Slots, i: u16, id: u16)
    requires Consistent(v) && id != 0
    ensures InReceipt(PubrelReceived(v, i).slots, id) <==> InReceipt(v, id) && !(i == id && !Shadowed(v, id))
  {
    hide EntryOk, NonFree, PubrelReceived, Shadowed, InReceipt;
    InReceiptIff(v, id);
    InReceiptIff(PubrelReceived(v, i).slots, id);
    if i == 0 { ZeroExact(v, 0); } else { PubrelExact(v, i); }
  }

  /** The receipts of one id around one event. */
  lemma EventExact(v: Slots, e: Event, id: u16)
    requires Consistent(v) && Possible(v, e) && id != 0
    ensures Consistent(After(v, e))
    ensures var open, room, hidden := InReceipt(v, id), v.count < |v.hot|, Shadowed(v, id);
            && (Passes(v, e, id) <==> e.Publish? && e.id == id && room && (!open || hidden))
            && (Answered(v, e, id) <==> Passes(v, e, id) || (e.Publish? && e.id == id && open && !hidden))
            && (InReceipt(After(v, e), id) <==>
                  || Passes(v, e, id)
                  || (open && !(e == Pubrel(id) && !hidden) && !(e.WriteFailed? && id in e.ids && SitsDirect(v, id))))
    ensures SitsDirect(v, id) ==> InReceipt(v, id)
  {
    hide EntryOk, NonFree, PubReceived, PubrelReceived, Shadowed, InReceipt, SitsDirect, Undo, Alloc, FreeSlot;
    AfterKeeps(v, e);
    if SitsDirect(v, id) {
      DirectIsReceipt(v, id);
    }
    if Aside(e) {
      InReceiptIff(v, id);
      InReceiptIff(After(v, e), id);
    }
    match e
    case Publish(i, now) => PublishEvent(v, i, now, id);
    case Pubrel(i) => PubrelEvent(v, i, id);
    case WriteFailed(ids) => UndoLosesIff(v, ids, id);
    case _ =>
  }

  /** Over every run: each PUBLISH that passes is paid for by a PUBREL that ended its receipt, a receipt that a failed write
      erased, a repetition, or the receipt still open at the end. */
  lemma {:induction false} ReceiptsBalance(v: Slots, es: seq<Event>, id: u16)
    requires Consistent(v) && Feasible(v, es) && id != 0
    ensures LetThrough(v, es, id) + Count(InReceipt(v, id))
         == Ended(v, es, id) + Lost(v, es, id) + Repeated(v, es, id) + Count(InReceipt(Last(v, es), id))
    decreases es
  {
    hide InReceipt, Possible, Passes, Answered, Shadowed, SitsDirect, After;
    if es != [] {
      EventExact(v, es[0], id);
      ReceiptsBalance(After(v, es[0]), es[1..], id);
    }
  }

  /** The guards are exactly what keeps receipts from being lost, repeated or stuck. */
  lemma {:induction false} GuardedIff(v: Slots, es: seq<Event>, id: u16)
    requires Consistent(v) && Feasible(v, es) && id != 0
    ensures Guarded(v, es, id) <==> Lost(v, es, id) + Repeated(v, es, id) + Stuck(v, es, id) == 0
    decreases es
  {
    hide InReceipt, Possible, Passes, Answered, Shadowed, SitsDirect, After;
    if es != [] {
      EventExact(v, es[0], id);
      GuardedIff(After(v, es[0]), es[1..], id);
    }
  }

  /** One event keeps the table in step with the receiver if and only if it meets the guard. */
  lemma EventRefines(v: Slots, e: Event, id: u16)
    requires Consistent(v) && Possible(v, e) && id != 0
    ensures Consistent(After(v, e))
    ensures var open := InReceipt(v, id);
            && (Passes(v, e, id) <==> Answered(v, e, id) && !open) && (InReceipt(After(v, e), id) <==> Opens(v, e, id, open))
            <==> Guard(v, e, id)
  {
    hide InReceipt, Possible, Passes, Answered, Shadowed, SitsDirect, After;
    EventExact(v, e, id);
  }

  /** Exactly once: over every run the table is the receiver of section 4.3.3 if and only if every event meets the guards;
      and then the PUBLISH packets that pass and the handshakes balance, but for what is open at either end. */
  lemma {:induction false} ExactlyOnce(v: Slots, es: seq<Event>, id: u16)
    requires Consistent(v) && Feasible(v, es) && id != 0
    ensures Refines(v, es, id, InReceipt(v, id)) <==> Guarded(v, es, id)
    ensures Guarded(v, es, id) ==>
              LetThrough(v, es, id) + Count(InReceipt(v, id)) == Handshakes(v, es, id, InReceipt(v, id)) + Count(InReceipt(Last(v, es), id))
    decreases es
  {
    hide InReceipt, Possible, Passes, PubReceived, Guard, After;
    if es != [] {
      EventRefines(v, es[0], id);
      ExactlyOnce(After(v, es[0]), es[1..], id);
    }
  }

  /** Between two PUBRELs for an id at most one PUBLISH with that id goes to fan-out, unless a guard is broken; each
      break costs at most one. */
  lemma AtMostOnceBetweenPubrels(v: Slots, es: seq<Event>, id: u16)
    requires Consistent(v) && Feasible(v, es) && id != 0
    requires forall i :: 0 <= i < |es| ==> es[i] != Pubrel(id)
    ensures LetThrough(v, es, id) <= 1 + Lost(v, es, id) + Repeated(v, es, id)
    ensures Guarded(v, es, id) ==> LetThrough(v, es, id) <= 1
  {
    ReceiptsBalance(v, es, id);
    GuardedIff(v, es, id);
    NothingEnded(v, es, id);
  }

  lemma {:induction false} NothingEnded(v: Slots, es: seq<Event>, id: u16)
    requires Consistent(v) && Feasible(v, es)
    requires forall i :: 0 <= i < |es| ==> es[i] != Pubrel(id)
    ensures Ended(v, es, id) == 0
    decreases es
  {
    if es != [] {
      AfterKeeps(v, es[0]);
      assert forall i :: 0 <= i < |es[1..]| ==> es[1..][i] == es[i + 1];
      NothingEnded(After(v, es[0]), es[1..], id);
    }
  }

  /** The code's decision on a repeated PUBLISH is wrong exactly when the id is shadowed and there is room. */
  lemma RepeatForwardedIff(v: Slots, id: u16, now: int)
    requires Consistent(v) && id != 0 && InReceipt(v, id)
    ensures PubReceived(v, 2, id, now).forward <==> Shadowed(v, id) && v.count < |v.hot|
  {
    PublishExact(v, id, now);
  }

  /** A concrete failing run: the broker sends its own message with id 1, then receives id 1 twice. */
  lemma ShadowForwardsTwice()
    ensures Consistent(Blank(4))
    ensures var es := [Send(1, 7, 0), Publish(1, 0), Publish(1, 0)];
            Feasible(Blank(4), es) && LetThrough(Blank(4), es, 1) == 2
  {
    BlankIsFree(4);
    var v0 := Blank(4);
    AfterKeeps(v0, Send(1, 7, 0));
    var v1 := After(v0, Send(1, 7, 0));
    assert v1.hot == [Hot(1, WaitPuback, OUTGOING, 7), BLANK_HOT, BLANK_HOT, BLANK_HOT] && v1.count == 1;
    ShadowedPublishTwice(v1);
    var es := [Send(1, 7, 0), Publish(1, 0), Publish(1, 0)];
    assert es[1..] == [Publish(1, 0), Publish(1, 0)];
  }

  /** With id 1 shadowed and room for two, two PUBLISH packets with id 1 both go through. */
  lemma ShadowedPublishTwice(v: Slots)
    requires Consistent(v) && v.hot[0].packetId == 1 && Outgoing(v.hot[0]) && v.count + 1 < |v.hot|
    ensures var es := [Publish(1, 0), Publish(1, 0)]; Feasible(v, es) && LetThrough(v, es, 1) == 2
  {
    PublishExact(v, 1, 0);
    TrackKeeps(v, 1, INFLIGHT_TIMEOUT_MS);
    LookupSeesReceipt(v, 1);
    var w := After(v, Publish(1, 0));
    assert w.hot[0] == v.hot[0];
    PublishExact(w, 1, 0);
    var es := [Publish(1, 0), Publish(1, 0)];
    assert es[1..] == [Publish(1, 0)] && es[1..][1..] == [];
  }

  /** A concrete failing run without any hidden id: the table has one slot, the broker's message 1 is acknowledged before
      its write fails, and the receipt of the client's own id 1 has taken the slot in between. */
  lemma FailedWriteForwardsTwice()
    ensures Consistent(Blank(1))
    ensures var es := [Send(1, 7, 0), Done(0), Publish(1, 0), WriteFailed([1]), Publish(1, 0)];
            && Feasible(Blank(1), es) && LetThrough(Blank(1), es, 1) == 2 && Ended(Blank(1), es, 1) == 0
            && Repeated(Blank(1), es, 1) == 0
  {
    hide Feasible, LetThrough, Ended, Repeated;
    BlankIsFree(1);
    var v0 := Blank(1);
    AfterKeeps(v0, Send(1, 7, 0));
    var v1 := After(v0, Send(1, 7, 0));
    assert v1.hot == [Hot(1, WaitPuback, OUTGOING, 7)] && v1.count == 1;
    AfterKeeps(v1, Done(0));
    var v2 := After(v1, Done(0));
    assert v2.hot == [Hot(1, Free, OUTGOING, INVALID)] && v2.count == 0;
    ReceiptLostTwice(v2);
    var rest := [Publish(1, 0), WriteFailed([1]), Publish(1, 0)];
    OtherFirst(v1, Done(0), rest);
    OtherFirst(v0, Send(1, 7, 0), [Done(0)] + rest);
    assert [Send(1, 7, 0)] + ([Done(0)] + rest) == [Send(1, 7, 0), Done(0), Publish(1, 0), WriteFailed([1]), Publish(1, 0)];
  }

  /** An event on an outgoing entry counts nothing. */
  lemma OtherFirst(v: Slots, e: Event, es: seq<Event>)
    requires Consistent(v) && Possible(v, e) && Aside(e) && Consistent(After(v, e)) && Feasible(After(v, e), es)
    ensures Feasible(v, [e] + es)
    ensures LetThrough(v, [e] + es, 1) == LetThrough(After(v, e), es, 1)
    ensures Ended(v, [e] + es, 1) == Ended(After(v, e), es, 1)
    ensures Repeated(v, [e] + es, 1) == Repeated(After(v, e), es, 1)
  {
    hide Consistent, After;
    assert ([e] + es)[0] == e && ([e] + es)[1..] == es;
  }

  lemma ReceiptLostTwice(v: Slots)
    requires Consistent(v) && |v.hot| == 1 && v.hot[0].state == Free && v.count == 0
    ensures var es := [Publish(1, 0), WriteFailed([1]), Publish(1, 0)];
            Feasible(v, es) && LetThrough(v, es, 1) == 2 && Ended(v, es, 1) == 0 && Repeated(v, es, 1) == 0
  {
    hide EntryOk, Track, Find, FreeSlot;
    var e, f := Publish(1, 0), WriteFailed([1]);
    FreeTable(v);
    PublishExact(v, 1, 0);
    AfterKeeps(v, e);
    var w := After(v, e);
    OnlyReceipt(v);
    UndoLosesIff(w, [1], 1);
    AfterKeeps(w, f);
    var u := After(w, f);
    UndoneTable(w);
    FreeTable(u);
    PublishExact(u, 1, 0);
    AfterKeeps(u, e);
    assert [e, f, e][1..] == [f, e] && [f, e][1..] == [e] && [e][1..] == [];
  }

  lemma FreeTable(v: Slots)
    requires |v.hot| == 1 && v.hot[0].state == Free
    ensures !InReceipt(v, 1) && !Shadowed(v, 1)
  {
  }

  lemma OnlyReceipt(v: Slots)
    requires Consistent(v) && |v.hot| == 1 && v.hot[0].state == Free && v.count == 0
    ensures var w := PubReceived(v, 2, 1, 0).slots; |w.hot| == 1 && w.hot[0] == Hot(1, WaitPubrel, INCOMING, INVALID) && SitsDirect(w, 1)
  {
  }

  lemma UndoneTable(w: Slots)
    requires |w.hot| == 1 && w.hot[0] == Hot(1, WaitPubrel, INCOMING, INVALID) && Consistent(w)
    ensures var u := Undo(w, [1]); |u.hot| == 1 && u.hot[0].state == Free && u.count == 0
  {
    assert [1][1..] == [];
    assert Undo(w, [1]) == Undo(UndoOne(w, 1), []) == UndoOne(w, 1);
  }

  /** The counts of a run, event by event. */
  lemma OneMore(v: Slots, e: Event, es: seq<Event>, id: u16, open: bool)
    requires Consistent(v) && Possible(v, e) && Consistent(After(v, e)) && Feasible(After(v, e), es)
    ensures Feasible(v, [e] + es)
    ensures LetThrough(v, [e] + es, id) == Count(Passes(v, e, id)) + LetThrough(After(v, e), es, id)
    ensures Lost(v, [e] + es, id) == Count(e.WriteFailed? && InReceipt(v, id) && !InReceipt(After(v, e), id)) + Lost(After(v, e), es, id)
    ensures Repeated(v, [e] + es, id) == Count(Passes(v, e, id) && InReceipt(v, id)) + Repeated(After(v, e), es, id)
    ensures Handshakes(v, [e] + es, id, open) == Count(e == Pubrel(id) && open) + Handshakes(After(v, e), es, id, Opens(v, e, id, open))
    ensures Last(v, [e] + es) == Last(After(v, e), es)
  {
    hide EntryOk, NonFree, After, Passes, InReceipt, Answered, Possible;
    assert ([e] + es)[0] == e && ([e] + es)[1..] == es;
  }

  /** A concrete failing run in which nothing is lost or repeated: PUBREL 1 finds its receipt hidden by the broker's own
      message 1 and is answered all the same. When that message is acknowledged the receipt is in plain sight again, and the
      next message with id 1 is acknowledged, never passed on. Two handshakes, one message. */
  lemma HiddenPubrelSwallows()
    ensures Consistent(Blank(4))
    ensures var es := [Send(1, 7, 0), Publish(1, 0), Pubrel(1), Done(0), Publish(1, 0), Pubrel(1)];
            && Feasible(Blank(4), es) && LetThrough(Blank(4), es, 1) == 1 && Handshakes(Blank(4), es, 1, false) == 2
            && Lost(Blank(4), es, 1) == Repeated(Blank(4), es, 1) == 0 && !InReceipt(Last(Blank(4), es), 1)
  {
    hide Feasible, LetThrough, Lost, Repeated, Handshakes, InReceipt, Last, Passes, Answered;
    BlankIsFree(4);
    var v0 := Blank(4);
    var e0, e1, e2, e3 := Send(1, 7, 0), Publish(1, 0), Pubrel(1), Done(0);
    AfterKeeps(v0, e0);
    var v1 := After(v0, e0);
    assert v1.hot == [Hot(1, WaitPuback, OUTGOING, 7), BLANK_HOT, BLANK_HOT, BLANK_HOT] && v1.count == 1;
    NothingTracked(v0);
    EventExact(v0, e0, 1);
    HiddenRun(v1);
    OneMore(v0, e0, [e1] + ([e2] + ([e3] + ([e1] + ([e2] + [])))), 1, false);
    assert [e0] + ([e1] + ([e2] + ([e3] + ([e1] + ([e2] + []))))) == [e0, e1, e2, e3, e1, e2];
  }

  lemma NothingTracked(v: Slots)
    requires forall s :: 0 <= s < |v.hot| ==> v.hot[s].state == Free
    ensures !InReceipt(v, 1) && forall e: Event :: Shaped(v) && e.Send? ==> !Passes(v, e, 1) && !Answered(v, e, 1)
  {
  }

  /** From the broker's own message 1 in slot 0 on. */
  lemma HiddenRun(v1: Slots)
    requires Consistent(v1) && |v1.hot| == 4 && v1.hot[0] == Hot(1, WaitPuback, OUTGOING, 7) && v1.count == 1 && !InReceipt(v1, 1)
    ensures var es := [Publish(1, 0)] + ([Pubrel(1)] + ([Done(0)] + ([Publish(1, 0)] + ([Pubrel(1)] + []))));
            && Feasible(v1, es) && LetThrough(v1, es, 1) == 1 && Handshakes(v1, es, 1, false) == 2
            && Lost(v1, es, 1) == Repeated(v1, es, 1) == 0 && !InReceipt(Last(v1, es), 1)
  {
    hide EntryOk, NonFree, Feasible, LetThrough, Lost, Repeated, Handshakes, InReceipt, Last, Track, Find, FreeSlot;
    var e1, e2, e3 := Publish(1, 0), Pubrel(1), Done(0);
    assert Shadowed(v1, 1);
    EventExact(v1, e1, 1);
    var v2 := After(v1, e1);
    HiddenStays(v1);
    EventExact(v2, e2, 1);
    var v3 := After(v2, e2);
    PubrelExact(v2, 1);
    EventExact(v3, e3, 1);
    var v4 := After(v3, e3);
    Unhidden(v3);
    EventExact(v4, e1, 1);
    var v5 := After(v4, e1);
    LookupSeesReceipt(v4, 1);
    EventExact(v5, e2, 1);
    Finished(After(v5, e2));
    OneMore(v5, e2, [], 1, true);
    OneMore(v4, e1, [e2] + [], 1, false);
    OneMore(v3, e3, [e1] + ([e2] + []), 1, false);
    OneMore(v2, e2, [e3] + ([e1] + ([e2] + [])), 1, true);
    OneMore(v1, e1, [e2] + ([e3] + ([e1] + ([e2] + []))), 1, false);
  }

  lemma Finished(v: Slots)
    requires Consistent(v)
    ensures Feasible(v, []) && Last(v, []) == v
    ensures LetThrough(v, [], 1) == Lost(v, [], 1) == Repeated(v, [], 1) == Handshakes(v, [], 1, false) == 0
  {
  }

  lemma HiddenStays(v: Slots)
    requires Consistent(v) && |v.hot| == 4 && v.hot[0] == Hot(1, WaitPuback, OUTGOING, 7) && v.count == 1 && !InReceipt(v, 1)
    ensures var w := PubReceived(v, 2, 1, 0).slots; w.hot != [] && w.hot[0] == v.hot[0] && Shadowed(w, 1) && |w.hot| == 4
  {
    TrackKeeps(v, 1, INFLIGHT_TIMEOUT_MS);
    LookupSeesReceipt(v, 1);
  }

  lemma Unhidden(v: Slots)
    requires |v.hot| == 4 && v.hot[0] == Hot(1, WaitPuback, OUTGOING, 7)
    ensures !Shadowed(FreeSlot(v, 0), 1)
  {
  }
}
