/** The topic trie in place (src/broker/trie.h). */
module TopicTrie {
  import opened Common
  import opened Probing
  import opened Topics
  import opened TrieModel
  import opened TrieMatch
  import opened TrieSteps

  class TopicTrie {
    const nodes: array<Node>
    var freeHead: nat
    var nodeCount: nat
    ghost var paths: map<int, Path>

    ghost function View(): Trie
      reads this, nodes
    {
      Trie(nodes[..], freeHead, nodeCount)
    }

    ghost predicate Valid()
      reads this, nodes
    {
      TrieOk(View(), paths)
    }

    /** trie_init */
    constructor (maxNodes: nat)
      requires maxNodes >= 2
      ensures Valid() && fresh(nodes) && nodes.Length == maxNodes && paths == map[0 := []]
      ensures forall path :: SubsAt(View(), paths, path) == map[]
      ensures forall i :: 0 <= i < maxNodes ==> nodes[i].subs == map[]
    {
      nodes := new Node[maxNodes](_ => ZERO);
      paths := map[0 := []];
      freeHead := 1;
      nodeCount := 1;
      new;
      for i := 1 to maxNodes - 1
        invariant nodes.Length == maxNodes
        invariant forall j :: 1 <= j < i ==> nodes[j] == FreeNode(Following(j, maxNodes))
        invariant forall j :: 0 <= j < maxNodes && (j == 0 || j >= i) ==> nodes[j] == ZERO
        invariant freeHead == 1 && nodeCount == 1 && paths == map[0 := []]
      {
        nodes[i] := nodes[i].(children := nodes[i].children[0 := i + 1]);
      }
      nodes[maxNodes - 1] := nodes[maxNodes - 1].(children := nodes[maxNodes - 1].children[0 := 0]);
      EmptyTrie(View());
      NoSubs(View(), paths);
    }

    /** trie_alloc */
    method Alloc() returns (idx: nat)
      requires freeHead < nodes.Length && (freeHead != 0 ==> nodes[freeHead].children != [])
      modifies this, nodes
      ensures idx == old(freeHead) && paths == old(paths)
      ensures idx == 0 ==> View() == old(View())
      ensures idx != 0 ==> View() == Trie(old(nodes[..])[idx := ZERO], old(nodes[freeHead].children[0]), old(nodeCount) + 1)
    {
      if freeHead == 0 {
        return 0;
      }
      idx := freeHead;
      freeHead := nodes[idx].children[0];
      nodeCount := nodeCount + 1;
      nodes[idx] := ZERO;
    }

    /** trie_free */
    method Free(idx: nat)
      requires idx < nodes.Length && nodes[idx].children != [] && nodeCount > 0
      modifies this, nodes
      ensures paths == old(paths)
      ensures idx == 0 ==> View() == old(View())
      ensures idx != 0 ==>
                var n := old(nodes[idx]);
                View() == Trie(old(nodes[..])[idx := n.(children := n.children[0 := old(freeHead)])], idx, old(nodeCount) - 1)
    {
      if idx == 0 {
        return;
      }
      nodes[idx] := nodes[idx].(children := nodes[idx].children[0 := freeHead]);
      freeHead := idx;
      nodeCount := nodeCount - 1;
    }

    /** trie_hash_insert */
    method HashInsert(p: nat, c: nat, home: nat) returns (ok: bool, ghost at: nat)
      requires p < nodes.Length && |nodes[p].table| == TABLE_SIZE && home < TABLE_SIZE && c != 0
      modifies nodes
      ensures ok == (0 in old(nodes[p].table))
      ensures !ok ==> nodes[..] == old(nodes[..])
      ensures ok ==> FirstEmpty(old(nodes[p].table), home, at)
      ensures ok ==> nodes[..] == old(nodes[..])[p := old(nodes[p]).(table := old(nodes[p].table)[at := c])]
    {
      var idx, probe := home, 0;
      while probe < TABLE_SIZE
        invariant probe <= TABLE_SIZE && idx < TABLE_SIZE && idx == (if home + probe < TABLE_SIZE then home + probe else home + probe - TABLE_SIZE) % TABLE_SIZE
        invariant forall y :: 0 <= y < TABLE_SIZE && Dist(home, y, TABLE_SIZE) < probe ==> nodes[p].table[y] != 0
        invariant nodes[..] == old(nodes[..])
      {
        if nodes[p].table[idx] == 0 {
          at := idx;
          nodes[p] := nodes[p].(table := nodes[p].table[idx := c]);
          return true, idx;
        }
        idx := Next(idx, TABLE_SIZE);
        probe := probe + 1;
      }
      ok, at := false, 0;
      assert forall y :: 0 <= y < TABLE_SIZE ==> Dist(home, y, TABLE_SIZE) < TABLE_SIZE;
    }

    /** trie_add_child */
    method AddChild(p: nat, c: nat) returns (ok: bool, ghost at: nat)
      requires p < nodes.Length && 0 < c < nodes.Length && p != c && |nodes[p].table| == TABLE_SIZE
      requires |nodes[p].children| == MAX_CHILDREN
      requires nodes[c].isPlus == (nodes[c].name == [PLUS]) && nodes[c].isHash == (nodes[c].name == [HASH])
      modifies nodes
      ensures ok == (old(nodes[p].childCount) < 32 && 0 in old(nodes[p].table))
      ensures !ok ==> nodes[..] == old(nodes[..])[p := old(nodes[p]).(children := nodes[p].children)]
                                                 [c := old(nodes[c]).(parent := nodes[c].parent)]
      ensures !ok && old(nodes[p].childCount) >= MAX_CHILDREN ==> nodes[..] == old(nodes[..])
      ensures ok ==> at < TABLE_SIZE && FirstEmpty(old(nodes[p].table), Home(old(nodes[c].name)), at)
      ensures ok ==> nodes[..] == old(nodes[..])[p := WithChild(old(nodes[p]), c, old(nodes[c].name), at)]
                                                [c := old(nodes[c]).(parent := p)]
    {
      hide Home;
      at := 0;
      if nodes[p].childCount >= MAX_CHILDREN {
        return false, 0;
      }
      nodes[p] := nodes[p].(children := nodes[p].children[nodes[p].childCount := c], childCount := nodes[p].childCount + 1);
      nodes[c] := nodes[c].(parent := p);
      var inserted;
      inserted, at := HashInsert(p, c, Home(nodes[c].name));
      if !inserted {
        nodes[p] := nodes[p].(childCount := nodes[p].childCount - 1);
        return false, at;
      }
      if nodes[c].isPlus {
        nodes[p] := nodes[p].(plusChild := c);
      } else if nodes[c].isHash {
        nodes[p] := nodes[p].(hashChild := c);
      }
      ok := true;
    }

    /** trie_find_child */
    method FindChild(p: nat, seg: Level) returns (c: nat)
      requires Valid() && p in paths
      ensures p < nodes.Length && nodes[p].childCount <= |nodes[p].children|
      ensures c == Child(nodes[..], p, seg)
    {
      hide Rooted, NodeOk, FreeChain, SubsOk, Home, Child;
      ghost var at := ProbeTarget(nodes[..], paths, p, seg);
      var idx := Home(seg);
      var probe := 0;
      while probe < TABLE_SIZE
        invariant 0 <= idx < TABLE_SIZE
        invariant probe + Dist(idx, at, TABLE_SIZE) == Dist(Home(seg), at, TABLE_SIZE)
      {
        var child := nodes[p].table[idx];
        if child == 0 {
          return 0;
        }
        if nodes[child].name == seg {
          return child;
        }
        idx := Next(idx, TABLE_SIZE);
        probe := probe + 1;
      }
      assert false;
    }

    /** Names a fresh node and sets its wildcard flags. */
    method Label(c: nat, seg: Level)
      requires c < nodes.Length && nodes[c] == ZERO
      modifies nodes
      ensures nodes[..] == old(nodes[..])[c := Named(seg)]
    {
      nodes[c] := nodes[c].(name := seg);
      if |seg| == 1 && seg[0] == PLUS {
        nodes[c] := nodes[c].(isPlus := true);
      } else if |seg| == 1 && seg[0] == HASH {
        nodes[c] := nodes[c].(isHash := true);
      }
    }

    /** The creating branch of trie_subscribe. */
    method CreateChild(p: nat, seg: Level) returns (c: nat)
      requires Valid() && p in paths && p < nodes.Length && nodes[p].childCount <= |nodes[p].children|
      requires Child(nodes[..], p, seg) == 0 && |seg| <= MAX_SEGMENT
      modifies this, nodes
      ensures Valid()
      ensures c == 0 <==> old(freeHead) == 0 || old(nodes[p].childCount) == 32
      ensures c == 0 ==> paths == old(paths) && freeHead == old(freeHead)
      ensures c == 0 ==> nodes[p].childCount == old(nodes[p].childCount)
      ensures c != 0 ==> c < nodes.Length && c !in old(paths) && paths == More(old(paths), p, seg, c)
      ensures forall path :: SubsAt(View(), paths, path) == old(SubsAt(View(), paths, path))
      ensures forall j :: 0 <= j < nodes.Length ==> nodes[j].subs == old(nodes[j].subs)
    {
      hide TrieOk, Child, SubsAt, Home, More, WithChild, FirstEmpty;
      ghost var was := View();
      Facts(was, paths, p);
      c := Alloc();
      if c == 0 {
        return;
      }
      Label(c, seg);
      var added;
      ghost var at;
      added, at := AddChild(p, c);
      if !added {
        Free(c);
        NotCreated(was, View(), paths, nodes[c]);
        return 0;
      }
      paths := More(paths, p, seg, c);
      assert nodes[..] == was.nodes[p := WithChild(was.nodes[p], c, seg, at)][c := Named(seg).(parent := p)];
      Created(was, View(), old(paths), p, seg, at);
    }

    /** One round of the loop in trie_subscribe: the child of this name, created when it is missing. */
    method FindOrCreate(p: nat, seg: Level, ghost full: Path) returns (c: nat)
      requires Valid() && p in paths && |seg| <= MAX_SEGMENT && paths[p] + [seg] <= full
      modifies this, nodes
      ensures Valid()
      ensures c != 0 ==> c in paths && c < nodes.Length && paths[c] == old(paths[p]) + [seg]
      ensures c == 0 ==> freeHead == 0 || FullNode(nodes[..], p)
      ensures c == 0 ==> !HasPath(old(paths), full) && paths == old(paths)
      ensures forall path :: SubsAt(View(), paths, path) == old(SubsAt(View(), paths, path))
      ensures HasPath(old(paths), full) ==> paths == old(paths)
      ensures forall j :: 0 <= j < nodes.Length ==> nodes[j].subs == old(nodes[j].subs)
    {
      hide TrieOk, Child, SubsAt, Home, More, HasPath;
      c := FindChild(p, seg);
      if c == 0 {
        MissingChild(View(), paths, p, seg, full);
        c := CreateChild(p, seg);
      } else {
        FoundChild(View(), paths, p, seg);
      }
    }

    method SetSubscriber(p: nat, slot: nat, gen: byte)
      requires Valid() && p in paths && slot < MAX_SLOTS
      modifies nodes
      ensures Valid()
      ensures SubsAt(View(), paths, paths[p]) == old(SubsAt(View(), paths, paths[p]))[slot := gen]
      ensures forall path :: path != paths[p] ==> SubsAt(View(), paths, path) == old(SubsAt(View(), paths, path))
      ensures p < nodes.Length && nodes[p].subs == old(nodes[p].subs)[slot := gen]
      ensures forall j :: 0 <= j < nodes.Length && j != p ==> nodes[j].subs == old(nodes[j].subs)
    {
      hide TrieOk, SubsAt;
      ghost var was := View();
      Facts(was, paths, p);
      if slot !in nodes[p].subs {
        nodes[p] := nodes[p].(subs := nodes[p].subs[slot := gen], subCount := nodes[p].subCount + 1);
      } else {
        nodes[p] := nodes[p].(subs := nodes[p].subs[slot := gen]);
      }
      MapPut(was.nodes[p].subs, slot, gen);
      StoreKeeps(was, View(), paths, p, was.nodes[p].subs[slot := gen]);
    }

    /** trie_subscribe */
    method Subscribe(filter: seq<byte>, slot: nat, gen: byte) returns (r: int, ghost at: nat)
      requires Valid()
      modifies this, nodes
      ensures Valid()
      ensures r == 0 || r == -1
      ensures r == 0 ==> slot < 4096
      ensures r == 0 ==> forall path :: SubsAt(View(), paths, path) ==
                           var was := old(SubsAt(View(), paths, path));
                           if path == Stored(filter) then was[slot := gen] else was
      ensures r == -1 ==> forall path :: SubsAt(View(), paths, path) == old(SubsAt(View(), paths, path))
      ensures r == 0 ==> at < nodes.Length && at in paths && paths[at] == Stored(filter)
      ensures forall j :: 0 <= j < nodes.Length ==>
                nodes[j].subs == if r == 0 && j == at then old(nodes[j].subs)[slot := gen] else old(nodes[j].subs)
      ensures slot < 4096 && HasPath(old(paths), Stored(filter)) ==> r == 0
      ensures slot < 4096 && r == -1 ==> exists p :: p in paths && paths[p] < Stored(filter) && (freeHead == 0 || FullNode(nodes[..], p))
    {
      hide TopicTrie.Valid, SubsAt, HasPath, CutAll, Stored, Levels, LevelEnd, Cut;
      at := 0;
      if slot >= MAX_SLOTS {
        return -1, 0;
      }
      var p: nat, pos: nat := 0, 0;
      Root(filter);
      while pos < |filter|
        invariant Valid() && 0 <= pos <= |filter| && p in paths
        invariant Stored(filter) == paths[p] + CutAll(Levels(filter, pos))
        invariant forall j :: 0 <= j < nodes.Length ==> nodes[j].subs == old(nodes[j].subs)
        invariant HasPath(old(paths), Stored(filter)) ==> paths == old(paths)
        invariant forall path :: SubsAt(View(), paths, path) == old(SubsAt(View(), paths, path))
        decreases |filter| - pos
      {
        var seg, next := ExtractSegment(filter, pos);
        CutFirst(filter, pos, seg, next);
        PathOn(paths[p], Cut(seg), CutAll(Levels(filter, next)));
        ghost var q := p;
        p := FindOrCreate(p, Cut(seg), Stored(filter));
        if p == 0 {
          assert paths[q] < Stored(filter);
          return -1, 0;
        }
        pos := next;
      }
      NoLevels(filter);
      assert Stored(filter) == paths[p];
      SetSubscriber(p, slot, gen);
      r, at := 0, p;
    }
  
    lemma Root(filter: seq<byte>)
      requires Valid()
      ensures 0 in paths && paths[0] == [] && Stored(filter) == paths[0] + CutAll(Levels(filter, 0))
    {
      hide TrieOk, Levels, CutAll;
      RootFacts(View(), paths);
    }

    /** trie_unsubscribe */
    method Unsubscribe(filter: seq<byte>, slot: nat) returns (r: int, ghost at: nat)
      requires Valid()
      modifies nodes
      ensures Valid()
      ensures r == if slot < 4096 && HasPath(paths, Stored(filter)) then 0 else -1
      ensures forall path :: SubsAt(View(), paths, path) ==
                           var was := old(SubsAt(View(), paths, path));
                           if path == Stored(filter) && slot < 4096 then was - {slot} else was
      ensures r == 0 ==> at < nodes.Length && at in paths && paths[at] == Stored(filter)
      ensures forall j :: 0 <= j < nodes.Length ==>
                nodes[j].subs == if r == 0 && j == at then old(nodes[j].subs) - {slot} else old(nodes[j].subs)
    {
      hide TrieOk, SubsAt, HasPath;
      at := 0;
      if slot >= MAX_SLOTS {
        return -1, 0;
      }
      var p: nat, pos: nat := 0, 0;
      RootFacts(View(), paths);
      while pos < |filter|
        invariant Valid() && 0 <= pos <= |filter| && p in paths
        invariant nodes[..] == old(nodes[..])
        invariant Stored(filter) == paths[p] + CutAll(Levels(filter, pos))
        decreases |filter| - pos
      {
        var seg, next := ExtractSegment(filter, pos);
        CutFirst(filter, pos, seg, next);
        var c := FindChild(p, Cut(seg));
        if c == 0 {
          MissingChild(View(), paths, p, Cut(seg), Stored(filter));
          NoPathNoSubs(View(), paths, Stored(filter));
          return -1, 0;
        }
        FoundChild(View(), paths, p, Cut(seg));
        p := c;
        pos := next;
      }
      assert Stored(filter) == paths[p];
      HasNode(paths, p);
      ClearSubscriber(p, slot);
      r, at := 0, p;
    }

    method ClearSubscriber(p: nat, slot: nat)
      requires Valid() && p in paths
      modifies nodes
      ensures Valid()
      ensures SubsAt(View(), paths, paths[p]) == old(SubsAt(View(), paths, paths[p])) - {slot}
      ensures forall path :: path != paths[p] ==> SubsAt(View(), paths, path) == old(SubsAt(View(), paths, path))
      ensures p < nodes.Length && nodes[p].subs == old(nodes[p].subs) - {slot}
      ensures forall j :: 0 <= j < nodes.Length && j != p ==> nodes[j].subs == old(nodes[j].subs)
    {
      hide TrieOk, SubsAt;
      ghost var was := View();
      Facts(was, paths, p);
      ClearBit(p, slot);
      StoreKeeps(was, View(), paths, p, was.nodes[p].subs - {slot});
    }

    /** Clears one bit of a node's bitmap. */
    method ClearBit(i: nat, slot: nat)
      requires i < nodes.Length && nodes[i].subCount == |nodes[i].subs|
      modifies nodes
      ensures nodes[..] == old(nodes[..])[i := Holding(old(nodes[i]), old(nodes[i].subs) - {slot})]
    {
      MapPut(nodes[i].subs, slot, 0);
      assert slot !in nodes[i].subs ==> nodes[i].subs - {slot} == nodes[i].subs;
      if slot in nodes[i].subs {
        nodes[i] := nodes[i].(subs := nodes[i].subs - {slot}, subCount := nodes[i].subCount - 1);
      }
    }

    /** trie_remove_fd */
    method RemoveFd(slot: nat)
      requires Valid()
      modifies nodes
      ensures Valid()
      ensures forall path :: SubsAt(View(), paths, path) == old(SubsAt(View(), paths, path)) - {slot}
      ensures forall j :: 0 <= j < nodes.Length ==> nodes[j].subs == old(nodes[j].subs) - {slot}
    {
      hide NodeOk, Rooted, FreeChain, SubsAt, Holding;
      if slot >= MAX_SLOTS {
        NeverStored(View(), paths, slot);
        return;
      }
      ghost var was := View();
      for i := 0 to nodes.Length
        invariant Dropped(was, View(), slot, i)
      {
        ClearBit(i, slot);
      }
      DroppedKeeps(was, View(), paths, slot);
    }

    /** trie_match_collect */
    method MatchCollect(topic: seq<byte>) returns (found: seq<nat>)
      requires Valid()
      ensures nodes.Length > 0 && found == FirstMatches([], Hits(nodes[..], 0, Levels(topic, 0)))
      ensures forall k :: 0 <= k < |found| ==> found[k] < nodes.Length
    {
      hide TrieOk, Hits;
      RootFacts(View(), paths);
      found := MatchFrom(0, topic, 0, []);
      HitsInRange(nodes[..], 0, Levels(topic, 0));
      ghost var hits := Hits(nodes[..], 0, Levels(topic, 0));
      assert [] + hits == hits;
      assert forall k :: 0 <= k < |found| ==> found[k] == hits[k] && hits[k] in hits;
    }

    /** trie_match_collect_recursive */
    method MatchFrom(p: nat, topic: seq<byte>, pos: nat, found: seq<nat>) returns (r: seq<nat>)
      requires Valid() && p in paths && pos <= |topic| && |found| <= MAX_MATCHES
      ensures p < nodes.Length && r == FirstMatches(found, Hits(nodes[..], p, Levels(topic, pos)))
      ensures |r| <= 64
      decreases |topic| - pos
    {
      hide TrieOk, Child, FirstMatches;
      Facts(View(), paths, p);
      WildcardChildren(View(), paths, p);
      var n := nodes[p];
      r := found;
      ghost var part := Self(nodes[..], n.hashChild);
      MatchesInTurn(found, part, []);
      if n.hashChild != 0 && nodes[n.hashChild].subCount > 0 {
        r := Collect(r, n.hashChild);
      }
      if pos >= |topic| {
        MatchesInTurn(found, part, if n.subCount > 0 then [p] else []);
        MatchesInTurn(r, [], []);
        if n.subCount > 0 {
          r := Collect(r, p);
        }
        return;
      }
      var seg, next := ExtractSegment(topic, pos);
      ghost var rest := Levels(topic, next);
      ghost var viaPlus := if n.plusChild != 0 then Hits(nodes[..], n.plusChild, rest) else [];
      MatchesInTurn(found, part, viaPlus);
      MatchesInTurn(r, [], []);
      if n.plusChild != 0 {
        r := MatchFrom(n.plusChild, topic, next, r);
      }
      assert r == FirstMatches(found, part + viaPlus);
      ghost var kid := Child(nodes[..], p, seg);
      ghost var viaName := if |seg| <= MAX_SEGMENT && kid != 0 then Hits(nodes[..], kid, rest) else [];
      MatchesInTurn(found, part + viaPlus, viaName);
      MatchesInTurn(r, [], []);
      HitsParts(nodes[..], p, Levels(topic, pos), seg, rest, viaPlus, viaName);
      if |seg| <= MAX_SEGMENT {
        var c := FindChild(p, seg);
        if c != 0 {
          FoundChild(View(), paths, p, seg);
          r := MatchFrom(c, topic, next, r);
        }
      }
    }
  }

  lemma HitsParts(nodes: seq<Node>, p: nat, ls: seq<Level>, seg: Level, rest: seq<Level>, viaPlus: seq<nat>, viaName: seq<nat>)
    requires p < |nodes| && ls == [seg] + rest && nodes[p].childCount <= |nodes[p].children| && nodes[p].plusChild < |nodes|
    requires viaPlus == if nodes[p].plusChild != 0 then Hits(nodes, nodes[p].plusChild, rest) else []
    requires viaName == if |seg| <= MAX_SEGMENT && Child(nodes, p, seg) != 0 then Hits(nodes, Child(nodes, p, seg), rest) else []
    ensures Hits(nodes, p, ls) == Self(nodes, nodes[p].hashChild) + viaPlus + viaName
  {
    assert ls[1..] == rest;
  }

  lemma WildcardChildren(t: Trie, paths: map<int, Path>, p: nat)
    requires TrieOk(t, paths) && p in paths
    ensures p < |t.nodes|
    ensures t.nodes[p].plusChild < |t.nodes| && (t.nodes[p].plusChild != 0 ==> t.nodes[p].plusChild in paths)
    ensures t.nodes[p].hashChild < |t.nodes| && (t.nodes[p].hashChild != 0 ==> t.nodes[p].hashChild in paths)
  {
    hide FreeChain, SubsOk, NodeOk, Rooted;
    NatKeys(t.nodes, paths);
    PlusChild(t.nodes, paths, p);
    HashChild(t.nodes, paths, p);
  }

  ghost predicate FullNode(nodes: seq<Node>, p: int) {
    0 <= p < |nodes| && nodes[p].childCount == 32
  }

  /** What soundness says about one node on the tree and about the head of the free list. */
  lemma Facts(t: Trie, paths: map<int, Path>, p: nat)
    requires TrieOk(t, paths) && p in paths
    ensures p < |t.nodes| && t.freeHead < |t.nodes| && t.nodeCount == |paths| > 0
    ensures var n := t.nodes[p];
            && |n.children| == MAX_CHILDREN && n.childCount <= MAX_CHILDREN && |n.table| == TABLE_SIZE && 0 in n.table
            && n.subCount == |n.subs| && forall s :: s in n.subs ==> 0 <= s < MAX_SLOTS
    ensures var f := t.nodes[t.freeHead];
            t.freeHead != 0 ==> t.freeHead !in paths && |f.children| == MAX_CHILDREN && f.subs == map[]
  {
    HeadIsFree(t, paths);
    hide FreeChain, WildcardsOk;
    assert NodeOk(t.nodes, paths, p);
    var x := EmptyCell(t.nodes, paths, p);
  }

  lemma RootFacts(t: Trie, paths: map<int, Path>)
    requires TrieOk(t, paths)
    ensures t.nodes != [] && 0 in paths && paths[0] == []
  {
    hide NodeOk, FreeChain, SubsOk;
  }

  lemma NoLevels(s: seq<byte>)
    ensures CutAll(Levels(s, |s|)) == []
  {
  }

  lemma PathOn(path: Path, l: Level, rest: Path)
    ensures path + ([l] + rest) == (path + [l]) + rest && path + [l] <= path + ([l] + rest)
  {
    assert (path + [l]) + rest == path + ([l] + rest);
  }

  lemma CutFirst(s: seq<byte>, pos: nat, seg: Level, next: nat)
    requires pos < |s| && next <= |s| && Levels(s, pos) == [seg] + Levels(s, next)
    ensures CutAll(Levels(s, pos)) == [Cut(seg)] + CutAll(Levels(s, next)) && |Cut(seg)| <= MAX_SEGMENT
  {
    hide Levels;
  }

  /** When p has no child of this name, no path runs through it. */
  lemma MissingChild(t: Trie, paths: map<int, Path>, p: nat, seg: Level, full: Path)
    requires TrieOk(t, paths) && p in paths && p < |t.nodes| && t.nodes[p].childCount <= |t.nodes[p].children|
    requires Child(t.nodes, p, seg) == 0 && paths[p] + [seg] <= full
    ensures !HasPath(paths, full)
  {
    hide NodeOk, FreeChain, SubsOk;
    if HasPath(paths, full) {
      var h: int :| h in paths && paths[h] == full;
      assert h >= 0;
      assert paths[p] <= full && full[|paths[p]|] == seg;
      var c := ChildTowards(t.nodes, paths, p, h);
      NamedChild(t.nodes, paths, p, seg);
    }
  }

  lemma FoundChild(t: Trie, paths: map<int, Path>, p: nat, seg: Level)
    requires TrieOk(t, paths) && p in paths && p < |t.nodes| && t.nodes[p].childCount <= |t.nodes[p].children|
    requires Child(t.nodes, p, seg) != 0
    ensures Child(t.nodes, p, seg) in paths && paths[Child(t.nodes, p, seg)] == paths[p] + [seg]
  {
    hide NodeOk, FreeChain, SubsOk, Rooted, Child;
    NamedChild(t.nodes, paths, p, seg);
  }

  lemma MapPut(m: map<int, byte>, k: int, v: byte)
    ensures |m[k := v]| == if k in m then |m| else |m| + 1
    ensures |m - {k}| == if k in m then |m| - 1 else |m|
  {
    assert m[k := v].Keys == m.Keys + {k};
    assert (m - {k}).Keys == m.Keys - {k};
  }

  lemma NoPathNoSubs(t: Trie, paths: map<int, Path>, path: Path)
    requires !HasPath(paths, path)
    ensures forall s :: SubsAt(t, paths, path) - {s} == SubsAt(t, paths, path)
  {
  }

  lemma HasNode(paths: map<int, Path>, i: int)
    requires i in paths
    ensures HasPath(paths, paths[i])
  {
  }

  /** No slot beyond the bitmap is ever stored. */
  lemma NeverStored(t: Trie, paths: map<int, Path>, slot: nat)
    requires SubsOk(t.nodes, paths) && slot >= MAX_SLOTS
    ensures forall path :: SubsAt(t, paths, path) - {slot} == SubsAt(t, paths, path)
    ensures forall j :: 0 <= j < |t.nodes| ==> t.nodes[j].subs - {slot} == t.nodes[j].subs
  {
  }

  method Collect(found: seq<nat>, h: nat) returns (r: seq<nat>)
    requires |found| <= MAX_MATCHES
    ensures r == FirstMatches(found, [h]) && |r| <= MAX_MATCHES
  {
    r := if |found| < MAX_MATCHES then found + [h] else found;
  }

  /** from, from + 1, ..., n - 1 */
  ghost function Upward(from: nat, n: nat): (s: seq<int>)
    requires from <= n
    ensures |s| == n - from
    ensures forall k :: 0 <= k < |s| ==> s[k] == from + k
    decreases n - from
  {
    if from == n then [] else [from] + Upward(from + 1, n)
  }

  /** An untouched free node that names the next one. */
  function FreeNode(next: nat): Node {
    ZERO.(children := ZERO.children[0 := next])
  }

  function Following(i: nat, n: nat): nat {
    if i + 1 < n then i + 1 else 0
  }

  /** The trie after trie_init: the root alone, all other nodes on the free list. */
  lemma EmptyTrie(t: Trie)
    requires |t.nodes| >= 2 && t.freeHead == 1 && t.nodeCount == 1
    requires t.nodes[0] == ZERO
    requires forall i :: 1 <= i < |t.nodes| ==> t.nodes[i] == FreeNode(Following(i, |t.nodes|))
    ensures TrieOk(t, map[0 := []])
    ensures forall i :: 0 <= i < |t.nodes| ==> t.nodes[i].subs == map[]
  {
    hide FreeChain, NodeOk, FreeNode, Following, SubsOk, Rooted;
    var paths: map<int, Path> := map[0 := []];
    EmptyChain(t, paths);
    EmptyRoot(t.nodes, paths);
    EmptyNodes(t.nodes);
    EmptySubs(t.nodes, paths);
  }

  lemma EmptyRoot(nodes: seq<Node>, paths: map<int, Path>)
    requires |nodes| > 0 && nodes[0] == ZERO && paths == map[0 := []]
    ensures Rooted(nodes, paths) && NodeOk(nodes, paths, 0)
  {
    NewNodeOk(nodes, paths, 0);
  }

  lemma EmptySubs(nodes: seq<Node>, paths: map<int, Path>)
    requires forall i :: 0 <= i < |nodes| ==> nodes[i].subs == map[] && nodes[i].subCount == 0
    ensures SubsOk(nodes, paths)
  {
  }

  lemma EmptyNodes(nodes: seq<Node>)
    requires |nodes| > 0 && nodes[0] == ZERO
    requires forall i :: 1 <= i < |nodes| ==> nodes[i] == FreeNode(Following(i, |nodes|))
    ensures forall i :: 0 <= i < |nodes| ==> nodes[i].subs == map[] && nodes[i].subCount == 0
  {
  }

  lemma EmptyChain(t: Trie, paths: map<int, Path>)
    requires |t.nodes| >= 2 && t.freeHead == 1 && paths == map[0 := []]
    requires forall i :: 1 <= i < |t.nodes| ==> t.nodes[i] == FreeNode(Following(i, |t.nodes|))
    ensures exists chain :: FreeChain(t, paths, chain)
  {
    var chain := Upward(1, |t.nodes|);
    forall i | 0 < i < |t.nodes| ensures i in chain {
      assert chain[i - 1] == i;
    }
    assert chain[0] == 1;
    assert FreeChain(t, paths, chain);
  }

  /** The cell at which probing for a name stops: the child's own, or an empty one. */
  lemma ProbeTarget(nodes: seq<Node>, paths: map<int, Path>, p: nat, seg: Level) returns (at: nat)
    requires Tree(nodes, paths) && p in paths
    ensures p < |nodes| && nodes[p].childCount <= |nodes[p].children| && |nodes[p].table| == TABLE_SIZE && at < TABLE_SIZE
    ensures forall x :: 0 <= x < TABLE_SIZE ==> nodes[p].table[x] < |nodes|
    ensures forall x :: 0 <= x < TABLE_SIZE && nodes[p].table[x] != 0 && nodes[nodes[p].table[x]].name == seg
                        ==> nodes[p].table[x] == Child(nodes, p, seg)
    ensures nodes[p].table[at] == Child(nodes, p, seg)
    ensures Child(nodes, p, seg) != 0 ==>
              forall y :: 0 <= y < TABLE_SIZE && Cyc(Home(seg), y, at) ==> nodes[p].table[y] != 0
  {
    hide Rooted, Home;
    assert NodeOk(nodes, paths, p);
    var t := nodes[p].table;
    forall x | 0 <= x < TABLE_SIZE && t[x] != 0 && nodes[t[x]].name == seg
      ensures t[x] == Child(nodes, p, seg)
    {
      OnlyChild(nodes, paths, p, seg, t[x]);
    }
    var c := Child(nodes, p, seg);
    if c != 0 {
      assert c in t;
      at :| 0 <= at < TABLE_SIZE && t[at] == c;
      assert ReachesCell(nodes, t, at);
    } else {
      at := EmptyCell(nodes, paths, p);
    }
  }

  lemma OnlyChild(nodes: seq<Node>, paths: map<int, Path>, p: nat, seg: Level, c: nat)
    requires Tree(nodes, paths) && p in paths && p < |nodes| && nodes[p].childCount <= |nodes[p].children|
    requires 0 < c < |nodes| && IsKid(nodes, p, c) && nodes[c].name == seg
    ensures Child(nodes, p, seg) == c
  {
    hide NodeOk;
    NamedChild(nodes, paths, p, seg);
    KidFacts(nodes, paths, p, c);
  }

  /** With at most 32 children in 64 cells some cell is empty, so inserting a child cannot fail. */
  lemma EmptyCell(nodes: seq<Node>, paths: map<int, Path>, p: nat) returns (x: nat)
    requires p in paths && NodeOk(nodes, paths, p)
    ensures x < TABLE_SIZE && nodes[p].table[x] == 0
  {
    var t := nodes[p].table;
    if forall x :: 0 <= x < TABLE_SIZE ==> t[x] != 0 {
      var kids: seq<int> := nodes[p].children[..nodes[p].childCount];
      var cells: seq<int> := t;
      forall x | 0 <= x < TABLE_SIZE ensures cells[x] in kids {
        assert IsKid(nodes, p, t[x]);
        var k :| 0 <= k < nodes[p].childCount && nodes[p].children[k] == t[x];
        assert kids[k] == t[x];
      }
      DistinctCount(cells);
      SubsetCount((set c | c in cells), (set c | c in kids));
      SeqSetSize(kids);
      assert false;
    }
    x :| 0 <= x < TABLE_SIZE && t[x] == 0;
  }

  lemma {:induction false} SeqSetSize(s: seq<int>)
    ensures |set x | x in s| <= |s|
  {
    if s != [] {
      SeqSetSize(s[1..]);
      assert (set x | x in s) == (set x | x in s[1..]) + {s[0]};
    }
  }
}
