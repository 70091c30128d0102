/** The open-addressing hash table with tombstones (src/mem/hashmap.h). */
module HashMap {
  import opened Common
  import opened Probing

  const EMPTY: u32 := 0xFFFF_FFFF    // HASHMAP_EMPTY
  const DELETED: u32 := 0xFFFF_FFFE  // HASHMAP_DELETED
  const MIN_CAPACITY := 16           // HASHMAP_MIN_CAPACITY

  datatype Entry = Entry(hash: u32, value: u32)

  /** A hash with a value stored under it. */
  datatype Item = Item(hash: u32, value: u32)

  predicate Taken(e: Entry) { e.value != EMPTY && e.value != DELETED }

  ghost function Of(e: Entry): multiset<Item> {
    if Taken(e) then multiset{Item(e.hash, e.value)} else multiset{}
  }

  /** What a table holds: how often each value is stored under each hash. */
  ghost function Items(s: seq<Entry>): multiset<Item> {
    if s == [] then multiset{} else Of(s[0]) + Items(s[1..])
  }

  lemma Exchange(head: multiset<Item>, now: multiset<Item>, out: multiset<Item>, was: multiset<Item>, into: multiset<Item>)
    requires now + out == was + into
    ensures head + now + out == head + was + into
  {
    assert head + now + out == head + (now + out);
    assert head + was + into == head + (was + into);
  }

  lemma {:induction false} ItemsUpdate(s: seq<Entry>, i: nat, e: Entry)
    requires i < |s|
    ensures Items(s[i := e]) + Of(s[i]) == Items(s) + Of(e)
  {
    if i == 0 {
      assert s[0 := e][1..] == s[1..];
    } else {
      assert s[i := e][1..] == s[1..][i - 1 := e];
      ItemsUpdate(s[1..], i - 1, e);
      Exchange(Of(s[0]), Items(s[1..][i - 1 := e]), Of(s[i]), Items(s[1..]), Of(e));
    }
  }

  lemma {:induction false} ItemsAre(s: seq<Entry>, x: Item)
    ensures x in Items(s) <==> exists i :: 0 <= i < |s| && Taken(s[i]) && Item(s[i].hash, s[i].value) == x
  {
    if s != [] {
      ItemsAre(s[1..], x);
      if i :| 0 <= i < |s| && Taken(s[i]) && Item(s[i].hash, s[i].value) == x {
        assert i > 0 ==> s[1..][i - 1] == s[i];
      }
      if x in Items(s[1..]) {
        var i :| 0 <= i < |s| - 1 && Taken(s[1..][i]) && Item(s[1..][i].hash, s[1..][i].value) == x;
        assert s[i + 1] == s[1..][i];
      }
    }
  }

  /** A table that holds less than it has cells has a cell without an item. */
  lemma {:induction false} RoomAt(s: seq<Entry>) returns (i: nat)
    requires |Items(s)| < |s|
    ensures i < |s| && !Taken(s[i])
  {
    if !Taken(s[0]) {
      i := 0;
    } else {
      i := RoomAt(s[1..]);
      i := i + 1;
    }
  }

  lemma {:induction false} SizeBound(s: seq<Entry>)
    ensures |Items(s)| <= |s|
  {
    if s != [] {
      SizeBound(s[1..]);
    }
  }

  lemma {:induction false} NothingStored(s: seq<Entry>)
    requires forall i :: 0 <= i < |s| ==> s[i].value == EMPTY
    ensures Items(s) == multiset{}
  {
    if s != [] {
      NothingStored(s[1..]);
    }
  }

  /** Every cell from the home of an item up to the item was used at some time. */
  ghost predicate Reached(s: seq<Entry>, x: int)
    requires 0 <= x < |s|
  {
    forall y :: 0 <= y < |s| && Dist(s[x].hash % |s|, y, |s|) <= Dist(s[x].hash % |s|, x, |s|) ==> s[y].value != EMPTY
  }

  ghost predicate Probed(s: seq<Entry>) {
    && |s| > 0
    && forall x :: 0 <= x < |s| && Taken(s[x]) ==> Reached(s, x)
  }

  /** Changing one cell to anything but never-used keeps all items within reach, the new one included when the cells
      before it are in use. */
  lemma PutKeeps(s: seq<Entry>, i: nat, e: Entry)
    requires Probed(s) && i < |s| && e.value != EMPTY
    requires Taken(e) ==>
               forall y :: 0 <= y < |s| && Dist(e.hash % |s|, y, |s|) < Dist(e.hash % |s|, i, |s|) ==> s[y].value != EMPTY
    ensures Probed(s[i := e])
  {
    var t := s[i := e];
    forall x | 0 <= x < |t| && Taken(t[x]) ensures Reached(t, x) {
      if x == i {
        forall y | 0 <= y < |t| && Dist(t[x].hash % |t|, y, |t|) <= Dist(t[x].hash % |t|, x, |t|)
          ensures t[y].value != EMPTY
        {
          SameDist(t[x].hash % |t|, y, x, |t|);
        }
      } else {
        assert Reached(s, x);
      }
    }
  }

  lemma SameDist(a: nat, x: nat, y: nat, n: nat)
    requires a < n && x < n && y < n
    ensures Dist(a, x, n) == Dist(a, y, n) <==> x == y
  {
  }

  /** Every item with this hash lies before the first unused cell of the walk. */
  lemma ProbeReach(s: seq<Entry>, hash: u32, steps: nat)
    requires Probed(s) && steps <= |s|
    requires steps == |s| || exists y :: 0 <= y < |s| && Dist(hash % |s|, y, |s|) == steps && s[y].value == EMPTY
    ensures forall x: nat :: x < |s| && Taken(s[x]) && s[x].hash == hash ==> Dist(hash % |s|, x, |s|) < steps
  {
    forall x: nat | x < |s| && Taken(s[x]) && s[x].hash == hash
      ensures Dist(hash % |s|, x, |s|) < steps
    {
      assert Reached(s, x);
    }
  }

  /** The rounding loop of hashmap_init. */
  method RoundUp(minCapacity: u32) returns (capacity: nat, ghost doublings: nat)
    requires minCapacity <= 0x8000_0000
    ensures 16 <= capacity <= 0x8000_0000 && minCapacity <= capacity
    ensures capacity > 16 ==> capacity < 2 * minCapacity
    ensures capacity * Pow2(doublings) == 0x8000_0000
  {
    capacity, doublings := MIN_CAPACITY, 27;
    PowersOfTwo();
    while capacity < minCapacity
      invariant MIN_CAPACITY <= capacity <= 0x8000_0000
      invariant capacity * Pow2(doublings) == 0x8000_0000
      invariant capacity > MIN_CAPACITY ==> capacity < 2 * minCapacity
      decreases minCapacity - capacity
    {
      Doubling(capacity, doublings);
      doublings := doublings - 1;
      capacity := capacity * 2;
    }
  }

  lemma Doubling(capacity: nat, k: nat)
    requires capacity * Pow2(k) == 0x8000_0000 && 0 < capacity < 0x8000_0000
    ensures k > 0 && capacity * 2 * Pow2(k - 1) == 0x8000_0000 && capacity * 2 <= 0x8000_0000
  {
    assert k > 0;
    var q := Pow2(k - 1);
    assert q >= 1;
    assert capacity * 2 * q == capacity * (2 * q);
    assert capacity * 2 * q >= capacity * 2;
  }

  class HashMap {
    const entries: array<Entry>
    var count: u32

    ghost predicate Valid()
      reads this, entries
    {
      && entries.Length >= MIN_CAPACITY && entries.Length < 0x1_0000_0000
      && Probed(entries[..])
      && count == |Items(entries[..])|
    }

    ghost function View(): multiset<Item>
      reads this, entries
    {
      Items(entries[..])
    }

    /** hashmap_init: the least power of two from 16 on that is not below minCapacity. */
    constructor (minCapacity: u32)
      requires minCapacity <= 0x8000_0000
      ensures Valid() && View() == multiset{} && fresh(entries) && entries.Length >= minCapacity
      ensures entries.Length > MIN_CAPACITY ==> entries.Length < 2 * minCapacity
      ensures exists k :: entries.Length * Pow2(k) == 0x8000_0000
    {
      hide Pow2;
      var capacity, doublings := RoundUp(minCapacity);
      entries := new Entry[capacity](_ => Entry(0, EMPTY));
      count := 0;
      new;
      NothingStored(entries[..]);
    }

    /** hashmap_insert: it refuses at three quarters of the capacity, so its probe loop always meets a free cell,
        even when every cell has been used. */
    method Insert(hash: u32, value: u32) returns (ok: bool)
      requires Valid() && value != EMPTY && value != DELETED
      modifies this, entries
      ensures Valid()
      ensures ok == (old(count) < entries.Length * 3 % 0x1_0000_0000 / 4)
      ensures View() == if ok then old(View()) + multiset{Item(hash, value)} else old(View())
    {
      hide Items, Probed;
      if count >= entries.Length * 3 % 0x1_0000_0000 / 4 {
        return false;
      }
      ghost var s, n, home := entries[..], entries.Length, hash % entries.Length;
      ghost var room := RoomAt(entries[..]);
      var idx := hash % entries.Length;
      while entries[idx].value != EMPTY && entries[idx].value != DELETED
        invariant 0 <= idx < n && entries[..] == s && count == |Items(s)|
        invariant Dist(home, idx, n) <= Dist(home, room, n)
        invariant forall y :: 0 <= y < n && Dist(home, y, n) < Dist(home, idx, n) ==> entries[y].value != EMPTY
        decreases Dist(home, room, n) - Dist(home, idx, n)
      {
        SameDist(home, idx, room, n);
        ghost var was := idx;
        idx := Next(idx, entries.Length);
        forall y | 0 <= y < n && Dist(home, y, n) < Dist(home, idx, n)
          ensures entries[y].value != EMPTY
        {
          SameDist(home, y, was, n);
        }
      }
      ghost var all := s[idx := Entry(hash, value)];
      PutKeeps(s, idx, Entry(hash, value));
      ItemsUpdate(s, idx, Entry(hash, value));
      assert Items(all) == Items(s) + multiset{Item(hash, value)};
      SizeBound(all);
      entries[idx] := Entry(hash, value);
      assert entries[..] == all;
      count := count + 1;
      ok := true;
    }

    /** hashmap_find: a value stored under the hash, or EMPTY exactly when there is none. */
    method Find(hash: u32) returns (value: u32)
      requires Valid()
      ensures value != EMPTY ==> Item(hash, value) in View() && value != DELETED
      ensures value == EMPTY ==> forall x :: x in View() ==> x.hash != hash
    {
      hide Items, Probed;
      ghost var s, n, home := entries[..], entries.Length, hash % entries.Length;
      var idx, start := hash % entries.Length, hash % entries.Length;
      ghost var steps := 0;
      var again := true;
      while again
        invariant 0 <= idx < n && steps <= n && (steps < n ==> Dist(home, idx, n) == steps) && (steps == n ==> idx == home)
        invariant again == (steps < n)
        invariant forall y :: 0 <= y < n && Dist(home, y, n) < steps ==> !(Taken(s[y]) && s[y].hash == hash)
        decreases n - steps
      {
        if entries[idx].value == EMPTY {
          NoneStored(s, hash, steps);
          return EMPTY;
        }
        if entries[idx].value != DELETED && entries[idx].hash == hash {
          ItemsAre(s, Item(hash, s[idx].value));
          return entries[idx].value;
        }
        StepOn(s, hash, steps, idx);
        idx := Next(idx, entries.Length);
        steps := steps + 1;
        again := idx != start;
      }
      NoneStored(s, hash, steps);
      value := EMPTY;
    }
  
    /** hashmap_remove: one occurrence goes, its cell stays marked as used. */
    method Remove(hash: u32, value: u32) returns (ok: bool)
      requires Valid() && value != EMPTY && value != DELETED
      modifies this, entries
      ensures Valid()
      ensures ok == (Item(hash, value) in old(View()))
      ensures View() == old(View()) - multiset{Item(hash, value)}
    {
      hide Items, Probed;
      var idx;
      ok, idx := Locate(hash, value);
      if ok {
        ghost var e := entries[idx].(value := DELETED);
        ghost var all := entries[..][idx := e];
        ItemsUpdate(entries[..], idx, e);
        assert Items(all) + multiset{Item(hash, value)} == Items(entries[..]);
        assert Items(all) == Items(entries[..]) - multiset{Item(hash, value)};
        PutKeeps(entries[..], idx, e);
        entries[idx] := entries[idx].(value := DELETED);
        assert entries[..] == all;
        count := count - 1;
      }
    }

    /** hashmap_update: one occurrence gets another value. */
    method Update(hash: u32, oldValue: u32, newValue: u32) returns (ok: bool)
      requires Valid() && oldValue != EMPTY && oldValue != DELETED && newValue != EMPTY && newValue != DELETED
      modifies this, entries
      ensures Valid()
      ensures ok == (Item(hash, oldValue) in old(View()))
      ensures View() == if ok then old(View()) - multiset{Item(hash, oldValue)} + multiset{Item(hash, newValue)} else old(View())
    {
      hide Items, Probed;
      var idx;
      ok, idx := Locate(hash, oldValue);
      if ok {
        ghost var e := Entry(hash, newValue);
        ghost var all := entries[..][idx := e];
        ItemsUpdate(entries[..], idx, e);
        assert Items(all) + multiset{Item(hash, oldValue)} == Items(entries[..]) + multiset{Item(hash, newValue)};
        ItemsAre(entries[..], Item(hash, oldValue));
        SwapOne(Items(all), Items(entries[..]), Item(hash, oldValue), Item(hash, newValue));
        assert Reached(entries[..], idx) by { IsReached(entries[..], idx); }
        PutKeeps(entries[..], idx, e);
        entries[idx] := entries[idx].(value := newValue);
        assert entries[..] == all;
      }
    }

    /** The probe loop that removal and update share. */
    method Locate(hash: u32, value: u32) returns (ok: bool, idx: nat)
      requires Valid() && value != EMPTY && value != DELETED
      ensures ok == (Item(hash, value) in View())
      ensures ok ==> idx < entries.Length && entries[idx] == Entry(hash, value)
    {
      hide Items, Probed;
      ghost var s, n, home := entries[..], entries.Length, hash % entries.Length;
      idx := hash % entries.Length;
      var start := idx;
      ghost var steps := 0;
      var again := true;
      while again
        invariant 0 <= idx < n && steps <= n && (steps < n ==> Dist(home, idx, n) == steps)
        invariant again == (steps < n)
        invariant Unmatched(s, hash, value, steps)
        decreases n - steps
      {
        if entries[idx].value == EMPTY {
          NotStored(s, hash, value, steps);
          return false, 0;
        }
        if entries[idx].hash == hash && entries[idx].value == value {
          ItemsAre(s, Item(hash, value));
          return true, idx;
        }
        PassBy(s, hash, value, steps, idx);
        idx := Next(idx, entries.Length);
        steps := steps + 1;
        again := idx != start;
      }
      NotStored(s, hash, value, steps);
      ok := false;
    }
  }

  function Pow2(k: nat): (r: nat)
    ensures r >= 1
  {
    if k == 0 then 1 else 2 * Pow2(k - 1)
  }

  lemma PowersOfTwo()
    ensures Pow2(27) == 0x800_0000
  {
    assert Pow2(9) == 512;
    assert Pow2(18) == 512 * Pow2(9);
    assert Pow2(27) == 512 * Pow2(18);
  }

  /** One step of a probe that did not match. */
  lemma StepOn(s: seq<Entry>, hash: u32, steps: nat, idx: nat)
    requires idx < |s| && Dist(hash % |s|, idx, |s|) == steps < |s|
    requires !(Taken(s[idx]) && s[idx].hash == hash)
    requires forall y :: 0 <= y < |s| && Dist(hash % |s|, y, |s|) < steps ==> !(Taken(s[y]) && s[y].hash == hash)
    ensures forall y :: 0 <= y < |s| && Dist(hash % |s|, y, |s|) < steps + 1 ==> !(Taken(s[y]) && s[y].hash == hash)
    ensures steps + 1 < |s| ==> Dist(hash % |s|, Next(idx, |s|), |s|) == steps + 1
    ensures Next(idx, |s|) == hash % |s| <==> steps + 1 == |s|
  {
    forall y | 0 <= y < |s| && Dist(hash % |s|, y, |s|) < steps + 1
      ensures !(Taken(s[y]) && s[y].hash == hash)
    {
      SameDist(hash % |s|, y, idx, |s|);
    }
  }

  lemma NoneStored(s: seq<Entry>, hash: u32, steps: nat)
    requires Probed(s) && steps <= |s|
    requires steps == |s| || exists y :: 0 <= y < |s| && Dist(hash % |s|, y, |s|) == steps && s[y].value == EMPTY
    requires forall y :: 0 <= y < |s| && Dist(hash % |s|, y, |s|) < steps ==> !(Taken(s[y]) && s[y].hash == hash)
    ensures forall x :: x in Items(s) ==> x.hash != hash
  {
    ProbeReach(s, hash, steps);
    forall x | x in Items(s)
      ensures x.hash != hash
    {
      ItemsAre(s, x);
    }
  }

  lemma SwapOne(now: multiset<Item>, was: multiset<Item>, out: Item, into: Item)
    requires now + multiset{out} == was + multiset{into} && out in was
    ensures now == was - multiset{out} + multiset{into} && |now| == |was|
  {
    assert (now + multiset{out}) - multiset{out} == now;
    assert |now + multiset{out}| == |now| + 1 && |was + multiset{into}| == |was| + 1;
  }

  lemma IsReached(s: seq<Entry>, x: nat)
    requires Probed(s) && x < |s| && Taken(s[x])
    ensures Reached(s, x)
  {
  }

  /** The first cells of the walk do not hold this item. */
  ghost predicate Unmatched(s: seq<Entry>, hash: u32, value: u32, steps: nat)
    requires |s| > 0
  {
    forall y :: 0 <= y < |s| && Dist(hash % |s|, y, |s|) < steps ==> s[y] != Entry(hash, value)
  }

  lemma PassBy(s: seq<Entry>, hash: u32, value: u32, steps: nat, idx: nat)
    requires idx < |s| && Dist(hash % |s|, idx, |s|) == steps < |s|
    requires Unmatched(s, hash, value, steps) && s[idx] != Entry(hash, value)
    ensures Unmatched(s, hash, value, steps + 1)
    ensures steps + 1 < |s| ==> Dist(hash % |s|, Next(idx, |s|), |s|) == steps + 1
    ensures Next(idx, |s|) == hash % |s| <==> steps + 1 == |s|
  {
    forall y | 0 <= y < |s| && Dist(hash % |s|, y, |s|) < steps + 1
      ensures s[y] != Entry(hash, value)
    {
      SameDist(hash % |s|, y, idx, |s|);
    }
  }

  lemma NotStored(s: seq<Entry>, hash: u32, value: u32, steps: nat)
    requires Probed(s) && steps <= |s| && value != EMPTY && value != DELETED && Unmatched(s, hash, value, steps)
    requires steps == |s| || exists y :: 0 <= y < |s| && Dist(hash % |s|, y, |s|) == steps && s[y].value == EMPTY
    ensures Item(hash, value) !in Items(s)
  {
    ProbeReach(s, hash, steps);
    ItemsAre(s, Item(hash, value));
  }
}
