/** The inflight slots of one client (src/broker/client.h) as values: what each operation does to them. */
module Inflight {
  import opened Common
  import opened Probing

  datatype InflightState = Free | Sending | WaitPuback | WaitPubrec | WaitPubrel | WaitPubcomp

  const OUTGOING: byte := 0
  const INCOMING: byte := 1
  const MAX_INFLIGHT: int := 1024 // LLMQ_MAX_INFLIGHT

  datatype Hot = Hot(packetId: u16, state: InflightState, direction: byte, msgIdx: u32)
  datatype Cold = Cold(deadline: int, qos: byte, dupCount: byte)

  // What memset(0xFF) followed by state = FREE leaves behind.
  const BLANK_HOT := Hot(0xFFFF, Free, 0xFF, INVALID)
  const BLANK_COLD := Cold(0xFFFF_FFFF_FFFF_FFFF, 0xFF, 0xFF)

  datatype Slots = Slots(hot: seq<Hot>, cold: seq<Cold>, count: int, hint: int, generation: u16)

  /** max_inflight is a power of two up to 1024; the powers of two are the divisors of 2^16. */
  predicate ValidMax(n: int) {
    0 < n <= MAX_INFLIGHT && 0x1_0000 % n == 0
  }

  predicate Tracked(e: Hot) { e.state != Free && e.direction == INCOMING }
  predicate Outgoing(e: Hot) { e.state != Free && e.direction == OUTGOING }

  function NonFree(hot: seq<Hot>): (k: nat)
    ensures k <= |hot|
  {
    if hot == [] then 0 else (if hot[0].state != Free then 1 else 0) + NonFree(hot[1..])
  }

  /** The slot that client_inflight_find_direct looks at. */
  function Direct(id: int, n: int): (s: int)
    requires n > 0
    ensures 0 <= s < n
  {
    (id - 1) % n
  }

  /** What the entries of one client satisfy between any two operations. */
  ghost predicate Consistent(v: Slots) {
    && Shaped(v)
    && v.count == NonFree(v.hot)
    && (forall s :: 0 <= s < |v.hot| && v.hot[s].state != Free ==> EntryOk(v.hot, s))
    && (forall s, t :: 0 <= s < t < |v.hot| && Tracked(v.hot[s]) && Tracked(v.hot[t])
                       ==> v.hot[s].packetId != v.hot[t].packetId)
  }

  ghost predicate EntryOk(hot: seq<Hot>, s: int)
    requires 0 <= s < |hot|
  {
    || (&& hot[s].direction == OUTGOING
        && hot[s].packetId != 0
        && Direct(hot[s].packetId, |hot|) == s
        && hot[s].state in {WaitPuback, WaitPubrec})
    || (&& hot[s].direction == INCOMING
        && hot[s].msgIdx == INVALID
        && hot[s].state == WaitPubrel)
  }

  /** The search from the free hint, bounded by max_inflight steps. */
  function Search(hot: seq<Hot>, slot: nat, searched: nat): (s: nat)
    requires slot < |hot|
    ensures s < |hot|
    decreases |hot| - searched
  {
    if hot[slot].state != Free && searched < |hot| then Search(hot, Next(slot, |hot|), searched + 1) else slot
  }

  /** packet_id = slot + 1 + generation * max_inflight in 16 bits, with the zero fix-up. */
  function AssignId(slot: nat, generation: u16, n: nat): u16
    requires slot < n <= MAX_INFLIGHT
  {
    var id := (slot + 1 + generation * n) % 0x1_0000;
    if id == 0 then slot + 1 else id
  }

  datatype Taken = Taken(slots: Slots, slot: int, packetId: u16)

  /** client_inflight_alloc: slot is -1 when the client is full. */
  function Alloc(v: Slots, qos: byte, msgIdx: u32, deadline: int): Taken
    requires Shaped(v)
  {
    if v.count >= |v.hot| then Taken(v, -1, 0)
    else
      var s := Search(v.hot, v.hint, 0);
      if v.hot[s].state != Free then Taken(v, -1, 0)
      else
        var id := AssignId(s, v.generation, |v.hot|);
        Taken(Slots(v.hot[s := Hot(id, if qos == 1 then WaitPuback else WaitPubrec, OUTGOING, msgIdx)],
                    v.cold[s := Cold(deadline, qos, 0)],
                    v.count + 1,
                    Next(s, |v.hot|),
                    if s == 0 then (v.generation + 1) % 0x1_0000 else v.generation),
              s, id)
  }

  predicate Shaped(v: Slots) {
    ValidMax(|v.hot|) && |v.cold| == |v.hot| && 0 <= v.hint < |v.hot|
  }

  /** First slot at or after i tracking the incoming id, or |hot|. */
  function TrackedAt(hot: seq<Hot>, id: int, i: nat): (s: nat)
    requires i <= |hot|
    ensures i <= s <= |hot|
    ensures s < |hot| ==> Tracked(hot[s]) && hot[s].packetId == id
    ensures forall k :: i <= k < s ==> !(Tracked(hot[k]) && hot[k].packetId == id)
    decreases |hot| - i
  {
    if i == |hot| || (Tracked(hot[i]) && hot[i].packetId == id) then i else TrackedAt(hot, id, i + 1)
  }

  /** client_inflight_track_incoming: slot is -1 when the client is full. */
  function Track(v: Slots, id: u16, deadline: int): Taken
    requires Shaped(v)
  {
    if v.count >= |v.hot| then Taken(v, -1, id)
    else if TrackedAt(v.hot, id, 0) < |v.hot| then Taken(v, TrackedAt(v.hot, id, 0), id)
    else
      var s := Search(v.hot, v.hint, 0);
      if v.hot[s].state != Free then Taken(v, -1, id)
      else
        Taken(v.(hot := v.hot[s := Hot(id, WaitPubrel, INCOMING, INVALID)],
                 cold := v.cold[s := Cold(deadline, 2, 0)],
                 count := v.count + 1,
                 hint := Next(s, |v.hot|)),
              s, id)
  }

  /** client_inflight_find_direct: -1 when not found. */
  function FindDirect(hot: seq<Hot>, id: u16): (s: int)
    requires hot != []
  {
    if id == 0 then -1
    else
      var s := Direct(id, |hot|);
      if hot[s].state != Free && hot[s].packetId == id then s else -1
  }

  /** client_inflight_find, with the hash table seen as the set of incoming entries it indexes. */
  function Find(hot: seq<Hot>, id: u16): (s: int)
    requires hot != []
  {
    if id == 0 then -1
    else if FindDirect(hot, id) >= 0 then FindDirect(hot, id)
    else if TrackedAt(hot, id, 0) < |hot| then TrackedAt(hot, id, 0)
    else -1
  }

  /** client_inflight_free_slot */
  function FreeSlot(v: Slots, s: nat): (w: Slots)
    requires s < |v.hot|
  {
    if v.hot[s].state == Free then v
    else v.(hot := v.hot[s := v.hot[s].(msgIdx := INVALID, state := Free)],
            count := if v.count > 0 then v.count - 1 else v.count)
  }

  function Blank(n: nat): Slots {
    Slots(seq(n, _ => BLANK_HOT), seq(n, _ => BLANK_COLD), 0, 0, 0)
  }

  /** client_inflight_free_all, with its early exit on a zero count. */
  function FreeAll(v: Slots): Slots {
    if v.count == 0 then v else Blank(|v.hot|).(generation := v.generation)
  }

  // ---- what these operations guarantee ----

  lemma {:induction false} NonFreeUpdate(hot: seq<Hot>, s: nat, e: Hot)
    requires s < |hot|
    ensures NonFree(hot[s := e]) ==
            NonFree(hot) + (if e.state != Free then 1 else 0) - (if hot[s].state != Free then 1 else 0)
  {
    if s == 0 {
      assert hot[s := e][1..] == hot[1..];
    } else {
      assert hot[s := e][1..] == hot[1..][s - 1 := e];
      NonFreeUpdate(hot[1..], s - 1, e);
    }
  }

  /** The counter decides fullness and emptiness exactly, over both directions. */
  lemma {:induction false} CountDecides(hot: seq<Hot>)
    ensures NonFree(hot) < |hot| <==> exists s :: 0 <= s < |hot| && hot[s].state == Free
    ensures NonFree(hot) == 0 <==> forall s :: 0 <= s < |hot| ==> hot[s].state == Free
  {
    if hot != [] {
      CountDecides(hot[1..]);
      assert forall s :: 1 <= s < |hot| ==> hot[s] == hot[1..][s - 1];
      if NonFree(hot[1..]) < |hot[1..]| {
        var s :| 0 <= s < |hot[1..]| && hot[1..][s].state == Free;
        assert hot[s + 1].state == Free;
      }
    }
  }

  /** The wrap-around search stops at the first free slot at or after the hint. */
  lemma {:induction false} SearchFinds(hot: seq<Hot>, slot: nat, searched: nat, f: nat)
    requires slot < |hot| && f < |hot| && hot[f].state == Free
    requires searched + Dist(slot, f, |hot|) <= |hot|
    ensures hot[Search(hot, slot, searched)].state == Free
    ensures Dist(slot, Search(hot, slot, searched), |hot|) <= Dist(slot, f, |hot|)
    decreases Dist(slot, f, |hot|)
  {
    if hot[slot].state != Free {
      SearchFinds(hot, Next(slot, |hot|), searched + 1, f);
    }
  }

  /** Allocation succeeds exactly when the count is below the limit. */
  lemma {:induction false} RoomIsFound(v: Slots)
    requires Consistent(v)
    ensures v.count < |v.hot| <==> v.hot[Search(v.hot, v.hint, 0)].state == Free
  {
    CountDecides(v.hot);
    if v.count < |v.hot| {
      var f :| 0 <= f < |v.hot| && v.hot[f].state == Free;
      SearchFinds(v.hot, v.hint, 0, f);
    }
  }

  /** For every generation, wrap-around and zero fix-up included, the id names its slot. */
  lemma AssignedIdLocates(slot: nat, generation: u16, n: nat)
    requires ValidMax(n) && slot < n
    ensures AssignId(slot, generation, n) != 0
    ensures Direct(AssignId(slot, generation, n), n) == slot
  {
    var k := 0x1_0000 / n;
    var raw := slot + 1 + generation * n;
    var q := raw / 0x1_0000;
    var id := raw % 0x1_0000;
    assert id - 1 == slot + (generation - q * k) * n by {
      assert q * 0x1_0000 == q * (k * n) == (q * k) * n;
    }
    ModShift(slot, generation - q * k, n);
    if id == 0 {
      ModShift(slot, 0, n);
    }
  }

  lemma ModShift(x: int, m: int, n: int)
    requires 0 <= x < n
    ensures (x + m * n) % n == x
  {
    var y := x + m * n;
    var d := y / n - m;
    assert d * n == (y / n) * n - m * n;
    assert d * n == x - y % n;
    assert d >= 1 ==> d * n >= n;
    assert d <= -1 ==> d * n <= -n;
  }

  lemma {:induction false} AllocKeeps(v: Slots, qos: byte, msgIdx: u32, deadline: int)
    requires Consistent(v)
    ensures var r := Alloc(v, qos, msgIdx, deadline);
            && Consistent(r.slots) && |r.slots.hot| == |v.hot|
            && (r.slot >= 0 <==> v.count < |v.hot|)
            && (r.slot >= 0 ==>
                  && r.slot < |v.hot| && v.hot[r.slot].state == Free
                  && FindDirect(r.slots.hot, r.packetId) == r.slot
                  && r.slots.hot[r.slot] == Hot(r.packetId, if qos == 1 then WaitPuback else WaitPubrec, OUTGOING, msgIdx)
                  && r.slots.cold == v.cold[r.slot := Cold(deadline, qos, 0)]
                  && (forall s :: 0 <= s < |v.hot| && s != r.slot ==> r.slots.hot[s] == v.hot[s])
                  && (forall s :: 0 <= s < |v.hot| && Outgoing(v.hot[s]) ==> v.hot[s].packetId != r.packetId))
  {
    RoomIsFound(v);
    if v.count < |v.hot| {
      var s := Search(v.hot, v.hint, 0);
      AssignedIdLocates(s, v.generation, |v.hot|);
      NonFreeUpdate(v.hot, s, Alloc(v, qos, msgIdx, deadline).slots.hot[s]);
    }
  }

  lemma {:induction false} TrackKeeps(v: Slots, id: u16, deadline: int)
    requires Consistent(v)
    ensures var r := Track(v, id, deadline); var w := r.slots; var s := r.slot;
            && Consistent(w)
            && (s >= 0 <==> v.count < |v.hot|)
            && (s >= 0 ==> s < |w.hot| && Tracked(w.hot[s]) && w.hot[s].packetId == id)
            && (forall t :: 0 <= t < |v.hot| && t != s ==> w.hot[t] == v.hot[t])
            && (w != v ==>
                  && 0 <= s < |v.hot| && v.hot[s].state == Free
                  && w.hot == v.hot[s := Hot(id, WaitPubrel, INCOMING, INVALID)]
                  && w.cold == v.cold[s := Cold(deadline, 2, 0)])
  {
    RoomIsFound(v);
    if v.count < |v.hot| && TrackedAt(v.hot, id, 0) == |v.hot| {
      var s := Search(v.hot, v.hint, 0);
      NonFreeUpdate(v.hot, s, Hot(id, WaitPubrel, INCOMING, INVALID));
    }
  }

  lemma {:induction false} FreeSlotKeeps(v: Slots, s: nat)
    requires Consistent(v) && s < |v.hot|
    ensures Consistent(FreeSlot(v, s))
    ensures FreeSlot(v, s).hot[s].state == Free
    ensures forall t :: 0 <= t < |v.hot| && t != s ==> FreeSlot(v, s).hot[t] == v.hot[t]
  {
    if v.hot[s].state != Free {
      NonFreeUpdate(v.hot, s, v.hot[s].(msgIdx := INVALID, state := Free));
      CountDecides(v.hot);
    }
  }

  lemma {:induction false} BlankIsFree(n: nat)
    ensures NonFree(seq(n, _ => BLANK_HOT)) == 0
  {
    CountDecides(seq(n, _ => BLANK_HOT));
  }

  lemma FreeAllKeeps(v: Slots)
    requires Consistent(v)
    ensures Consistent(FreeAll(v)) && |FreeAll(v).hot| == |v.hot|
    ensures NonFree(FreeAll(v).hot) == 0 && FreeAll(v).generation == v.generation
  {
    BlankIsFree(|v.hot|);
  }

  /** Outgoing ids are pairwise distinct and each is found at its own slot. */
  lemma OutgoingIdsLocate(v: Slots)
    requires Consistent(v)
    ensures forall s :: 0 <= s < |v.hot| && Outgoing(v.hot[s]) ==> FindDirect(v.hot, v.hot[s].packetId) == s
    ensures forall s, t :: 0 <= s < t < |v.hot| && Outgoing(v.hot[s]) && Outgoing(v.hot[t])
                           ==> v.hot[s].packetId != v.hot[t].packetId
  {
    forall s | 0 <= s < |v.hot| && Outgoing(v.hot[s])
      ensures Direct(v.hot[s].packetId, |v.hot|) == s && v.hot[s].packetId != 0
    {
      assert EntryOk(v.hot, s);
    }
  }
}
