/** What creating a node does to the trie (the creating branch of trie_subscribe in src/broker/trie.h). */
module TrieSteps {
  import opened Common
  import opened Probing
  import opened Topics
  import opened TrieModel
  import opened TrieMatch

  function Named(seg: Level): Node {
    ZERO.(name := seg, isPlus := seg == [PLUS], isHash := seg == [HASH])
  }

  /** Node p after trie_add_child put child c into cell x of its table. */
  function WithChild(n: Node, c: nat, seg: Level, x: nat): Node
    requires x < |n.table| && n.childCount < |n.children|
  {
    n.(children := n.children[n.childCount := c], childCount := n.childCount + 1, table := n.table[x := c],
       plusChild := if seg == [PLUS] then c else n.plusChild,
       hashChild := if seg == [HASH] then c else n.hashChild)
  }

  /** The first empty cell on the walk from home, which is where trie_hash_insert stores the child. */
  ghost predicate FirstEmpty(t: seq<nat>, home: nat, x: nat) {
    && home < TABLE_SIZE && x < TABLE_SIZE && |t| == TABLE_SIZE && t[x] == 0
    && forall y :: 0 <= y < TABLE_SIZE && Cyc(home, y, x) && y != x ==> t[y] != 0
  }

  /** The whole of what may be done with the head of the free list. */
  ghost predicate Grown(t: Trie, u: Trie, p: nat, seg: Level, x: nat) {
    && p < |t.nodes| && x < |t.nodes[p].table| && t.nodes[p].childCount < |t.nodes[p].children|
    && 0 < t.freeHead < |t.nodes| && t.nodes[t.freeHead].children != []
    && u.nodes == t.nodes[p := WithChild(t.nodes[p], t.freeHead, seg, x)][t.freeHead := Named(seg).(parent := p)]
    && u.freeHead == t.nodes[t.freeHead].children[0]
    && u.nodeCount == t.nodeCount + 1
  }

  ghost predicate CanGrow(t: Trie, paths: map<int, Path>, p: nat, seg: Level, x: nat) {
    && TrieOk(t, paths) && p in paths && p < |t.nodes| && |seg| <= MAX_SEGMENT
    && t.nodes[p].childCount < |t.nodes[p].children|
    && Child(t.nodes, p, seg) == 0
    && FirstEmpty(t.nodes[p].table, Home(seg), x)
  }

  /** The paths after node c was hung below p. */
  ghost function More(paths: map<int, Path>, p: nat, seg: Level, c: nat): (m: map<int, Path>)
    requires p in paths
    ensures c in m && m[c] == paths[p] + [seg]
    ensures forall i :: i in m <==> i in paths || i == c
    ensures forall i :: i in paths && i != c ==> m[i] == paths[i]
    ensures c !in paths ==> |m| == |paths| + 1
  {
    assert c !in paths ==> paths[c := paths[p] + [seg]].Keys == paths.Keys + {c};
    paths[c := paths[p] + [seg]]
  }

  lemma HeadIsFree(t: Trie, paths: map<int, Path>)
    requires TrieOk(t, paths)
    ensures t.freeHead < |t.nodes|
    ensures t.freeHead != 0 ==> t.freeHead !in paths && |t.nodes[t.freeHead].children| == MAX_CHILDREN && t.nodes[t.freeHead].subs == map[]
    ensures t.freeHead == 0 ==> forall i :: 0 <= i < |t.nodes| ==> i in paths
  {
    hide NodeOk;
    var chain :| FreeChain(t, paths, chain);
  }

  lemma GrownChain(t: Trie, u: Trie, paths: map<int, Path>, p: nat, seg: Level, x: nat)
    requires CanGrow(t, paths, p, seg, x) && Grown(t, u, p, seg, x) && t.freeHead !in paths
    ensures exists chain :: FreeChain(u, More(paths, p, seg, t.freeHead), chain)
  {
    hide NodeOk, Rooted, Child, Named, WithChild, SubsOk, FirstEmpty;
    var chain :| FreeChain(t, paths, chain);
    var rest := chain[1..];
    var grown := More(paths, p, seg, t.freeHead);
    assert t.freeHead == chain[0];
    assert t.nodes[chain[0]].children[0] == ChainAt(chain, 1) == ChainAt(rest, 0);
    forall k | 0 <= k < |rest|
      ensures 0 < rest[k] < |u.nodes| && rest[k] !in grown && u.nodes[rest[k]] == t.nodes[rest[k]]
      ensures ChainAt(chain, k + 2) == ChainAt(rest, k + 1)
    {
      assert rest[k] == chain[k + 1];
    }
    forall i | 0 < i < |u.nodes| && i !in grown
      ensures i in rest
    {
      assert i in chain && i != chain[0];
    }
    assert FreeChain(u, grown, rest);
  }

  /** Labels of a node: what a parent relies on. */
  ghost predicate SameLabels(a: seq<Node>, b: seq<Node>, paths: map<int, Path>) {
    && |a| == |b|
    && forall i :: i in paths && 0 <= i < |a| ==>
         && a[i].parent == b[i].parent && a[i].name == b[i].name
         && a[i].isPlus == b[i].isPlus && a[i].isHash == b[i].isHash
  }

  ghost predicate SameLinks(m: Node, n: Node) {
    && m.children == n.children && m.childCount == n.childCount && m.table == n.table
    && m.plusChild == n.plusChild && m.hashChild == n.hashChild
  }

  /** A node stays sound when its own links and all labels in the tree stay as they are. */
  lemma NodeFrame(a: seq<Node>, b: seq<Node>, paths: map<int, Path>, more: map<int, Path>, q: nat)
    requires q in paths && NodeOk(a, paths, q) && SameLabels(a, b, paths) && SameLinks(a[q], b[q])
    requires forall i :: i in paths ==> i in more && more[i] == paths[i]
    ensures NodeOk(b, more, q)
  {
    forall d | IsKid(a, q, d) ensures KidOk(a, paths, q, d) && KidOk(b, more, q, d) {}
    assert forall d :: IsKid(b, q, d) <==> IsKid(a, q, d);
    assert TableOk(b, q) by {
      forall x | 0 <= x < TABLE_SIZE && b[q].table[x] != 0
        ensures ReachesCell(b, b[q].table, x)
      {
        assert IsKid(a, q, b[q].table[x]) && ReachesCell(a, a[q].table, x);
      }
    }
  }

  lemma RootedFrame(a: seq<Node>, b: seq<Node>, paths: map<int, Path>)
    requires Rooted(a, paths) && SameLabels(a, b, paths)
    requires forall q :: q in paths && 0 <= q < |a| ==> SameLinks(a[q], b[q])
    ensures Rooted(b, paths)
  {
    forall i | i in paths && i != 0 ensures Hangs(b, paths, i) {
      assert Hangs(a, paths, i);
    }
  }

  lemma NewNodeOk(nodes: seq<Node>, paths: map<int, Path>, c: nat)
    requires c in paths && c < |nodes|
    requires nodes[c].children == ZERO.children && nodes[c].table == ZERO.table && nodes[c].childCount == 0
    requires nodes[c].plusChild == 0 && nodes[c].hashChild == 0
    ensures NodeOk(nodes, paths, c)
  {
  }

  /** Hanging a new child below p keeps p sound. */
  lemma LinkKeeps(a: seq<Node>, b: seq<Node>, paths: map<int, Path>, p: nat, c: nat, seg: Level, x: nat)
    requires p in paths && NodeOk(a, paths, p) && a[p].childCount < MAX_CHILDREN && p != c
    requires KidOk(a, paths, p, c) && a[c].name == seg && !IsKid(a, p, c)
    requires forall d :: 0 < d < |a| && IsKid(a, p, d) ==> a[d].name != seg
    requires FirstEmpty(a[p].table, Home(seg), x)
    requires b == a[p := WithChild(a[p], c, seg, x)]
    ensures NodeOk(b, paths, p)
  {
    hide Home;
    assert 0 < c < |a|;
    hide KidOk;
    var n := a[p].childCount;
    assert b[p].children[n] == c;
    forall d ensures IsKid(b, p, d) <==> IsKid(a, p, d) || d == c {
      if IsKid(a, p, d) {
        var k :| 0 <= k < n && a[p].children[k] == d;
        assert b[p].children[k] == d;
      }
    }
    assert forall k :: 0 <= k < n ==> IsKid(a, p, a[p].children[k]);
    LinkKeepsTable(a, b, paths, p, c, seg, x);
    LinkKeepsWildcards(a, b, paths, p, c, seg, x);
    forall k | 0 <= k < b[p].childCount ensures KidOk(b, paths, p, b[p].children[k]) {
      var d := b[p].children[k];
      assert KidOk(a, paths, p, d);
      KidFrame(a, b, paths, p, d, p);
    }
  }

  lemma KidFrame(a: seq<Node>, b: seq<Node>, paths: map<int, Path>, p: nat, d: nat, q: nat)
    requires p in paths && KidOk(a, paths, p, d) && |a| == |b| && q < |a| && (forall i :: 0 <= i < |a| && i != q ==> a[i] == b[i])
    requires a[q].parent == b[q].parent && a[q].name == b[q].name && a[q].isPlus == b[q].isPlus && a[q].isHash == b[q].isHash
    ensures KidOk(b, paths, p, d)
  {
  }

  lemma LinkKeepsTable(a: seq<Node>, b: seq<Node>, paths: map<int, Path>, p: nat, c: nat, seg: Level, x: nat)
    requires p < |a| && a[p].childCount < MAX_CHILDREN == |a[p].children| && TableOk(a, p) && p != c
    requires 0 < c < |a| && a[c].name == seg && !IsKid(a, p, c)
    requires FirstEmpty(a[p].table, Home(seg), x)
    requires b == a[p := WithChild(a[p], c, seg, x)]
    requires forall d :: IsKid(b, p, d) <==> IsKid(a, p, d) || d == c
    ensures TableOk(b, p)
  {
    hide IsKid, Home;
    var t, u := a[p].table, b[p].table;
    assert forall y :: 0 <= y < TABLE_SIZE && y != x ==> u[y] == t[y];
    assert forall d :: d in t && d != 0 ==> d in u by {
      forall d | d in t && d != 0 ensures d in u {
        var y :| 0 <= y < TABLE_SIZE && t[y] == d;
        assert u[y] == d;
      }
    }
    assert u[x] == c;
    forall y | 0 <= y < TABLE_SIZE && u[y] != 0
      ensures u[y] < |b| && IsKid(b, p, u[y]) && ReachesCell(b, u, y)
    {
      if y != x {
        assert IsKid(a, p, t[y]) && ReachesCell(a, t, y);
      }
    }
  }

  lemma LinkKeepsWildcards(a: seq<Node>, b: seq<Node>, paths: map<int, Path>, p: nat, c: nat, seg: Level, x: nat)
    requires p in paths && NodeOk(a, paths, p) && a[p].childCount < MAX_CHILDREN && p != c && x < |a[p].table|
    requires KidOk(a, paths, p, c) && a[c].name == seg && !IsKid(a, p, c)
    requires forall d :: 0 < d < |a| && IsKid(a, p, d) ==> a[d].name != seg
    requires b == a[p := WithChild(a[p], c, seg, x)]
    requires forall d :: IsKid(b, p, d) <==> IsKid(a, p, d) || d == c
    ensures WildcardsOk(b, p)
  {
    hide TableOk, Home;
    forall d: nat | IsKid(a, p, d) ensures KidOk(a, paths, p, d) && d != c && a[d].name != seg {}
  }

  lemma StillHangs(a: seq<Node>, b: seq<Node>, paths: map<int, Path>, p: nat, c: nat, i: nat)
    requires i < |a| == |b| && Hangs(a, paths, i) && p < |a| && c < |a| && c !in paths
    requires b[i].parent == a[i].parent
    requires forall q :: q in paths && 0 <= q < |a| && q != p ==> b[q] == a[q]
    requires a[p].childCount < |a[p].children| && b[p].childCount == a[p].childCount + 1
    requires b[p].children == a[p].children[a[p].childCount := c]
    ensures Hangs(b, paths, i)
  {
    var q := a[i].parent;
    var k :| 0 <= k < a[q].childCount && a[q].children[k] == i;
    assert b[q].children[k] == i;
  }

  lemma GrownRooted(a: seq<Node>, b: seq<Node>, paths: map<int, Path>, p: nat, c: nat, seg: Level)
    requires Rooted(a, paths) && p in paths && 0 < c < |a| == |b| && c !in paths
    requires forall h :: h in paths ==> paths[h] != paths[p] + [seg]
    requires forall i :: i in paths && 0 <= i < |a| ==> b[i].parent == a[i].parent && (i != p ==> b[i] == a[i])
    requires a[p].childCount < |a[p].children| && b[p].childCount == a[p].childCount + 1
    requires b[p].children == a[p].children[a[p].childCount := c] && b[c].parent == p
    ensures Rooted(b, More(paths, p, seg, c))
  {
    var grown := More(paths, p, seg, c);
    hide More, IsKid, Hangs;
    assert forall i :: i in grown ==> 0 <= i < |b|;
    assert forall i, j :: i in grown && j in grown && grown[i] == grown[j] ==> i == j;
    forall i | i in grown && i != 0 ensures Hangs(b, grown, i) {
      if i == c {
        NewHangs(b, grown, p, c);
      } else {
        assert Hangs(a, paths, i);
        StillHangs(a, b, paths, p, c, i);
        MorePaths(b, paths, grown, i);
      }
    }
  }

  lemma MorePaths(nodes: seq<Node>, paths: map<int, Path>, more: map<int, Path>, i: nat)
    requires i < |nodes| && Hangs(nodes, paths, i) && forall q :: q in paths ==> q in more
    ensures Hangs(nodes, more, i)
  {
  }

  lemma NewHangs(nodes: seq<Node>, paths: map<int, Path>, p: nat, c: nat)
    requires p in paths && p < |nodes| && c < |nodes| && nodes[c].parent == p
    requires 0 < nodes[p].childCount <= |nodes[p].children| && nodes[p].children[nodes[p].childCount - 1] == c
    ensures Hangs(nodes, paths, c)
  {
  }

  /** Creating a node keeps the whole trie sound and gives exactly one new path a node. */
  lemma GrownKeeps(t: Trie, u: Trie, paths: map<int, Path>, p: nat, seg: Level, x: nat)
    requires CanGrow(t, paths, p, seg, x) && Grown(t, u, p, seg, x)
    ensures t.freeHead !in paths && TrieOk(u, More(paths, p, seg, t.freeHead))
  {
    hide NodeOk, FreeChain, Rooted, FirstEmpty, Child, Home, SubsOk, More;
    HeadIsFree(t, paths);
    GrownChain(t, u, paths, p, seg, x);
    NamedChild(t.nodes, paths, p, seg);
    assert NodeOk(t.nodes, paths, p);
    GrownRooted(t.nodes, u.nodes, paths, p, t.freeHead, seg);
    GrownNodes(t, u, paths, p, seg, x);
    GrownSubs(t, u, paths, p, seg, x);
  }

  lemma GrownSubs(t: Trie, u: Trie, paths: map<int, Path>, p: nat, seg: Level, x: nat)
    requires CanGrow(t, paths, p, seg, x) && Grown(t, u, p, seg, x) && t.freeHead !in paths
    ensures SubsOk(u.nodes, More(paths, p, seg, t.freeHead))
  {
    hide NodeOk, FreeChain, Rooted, FirstEmpty, Child, Home, More;
  }

  lemma GrownNodes(t: Trie, u: Trie, paths: map<int, Path>, p: nat, seg: Level, x: nat)
    requires CanGrow(t, paths, p, seg, x) && Grown(t, u, p, seg, x) && t.freeHead !in paths
    ensures forall q :: q in paths || q == t.freeHead ==> q >= 0 && NodeOk(u.nodes, More(paths, p, seg, t.freeHead), q)
  {
    hide NodeOk, FreeChain, FirstEmpty, Child, Home, SubsOk, More, Rooted;
    forall q | q in paths || q == t.freeHead
      ensures q >= 0 && NodeOk(u.nodes, More(paths, p, seg, t.freeHead), q)
    {
      assert q >= 0 by { assert Rooted(t.nodes, paths); NatKey(t.nodes, paths, q, t.freeHead); }
      GrownNode(t, u, paths, p, seg, x, q);
    }
  }

  lemma NatKey(nodes: seq<Node>, paths: map<int, Path>, q: int, c: nat)
    requires Rooted(nodes, paths) && (q in paths || q == c)
    ensures q >= 0 && (q in paths ==> q < |nodes|)
  {
  }

  lemma GrownNode(t: Trie, u: Trie, paths: map<int, Path>, p: nat, seg: Level, x: nat, q: nat)
    requires CanGrow(t, paths, p, seg, x) && Grown(t, u, p, seg, x) && t.freeHead !in paths
    requires q in paths || q == t.freeHead
    ensures NodeOk(u.nodes, More(paths, p, seg, t.freeHead), q)
  {
    hide NodeOk, FreeChain, FirstEmpty, Child, Home, SubsOk, More, Rooted;
    var c := t.freeHead;
    var grown := More(paths, p, seg, c);
    var mid := t.nodes[c := Named(seg).(parent := p)];
    assert p != c;
    assert u.nodes == mid[p := WithChild(mid[p], c, seg, x)];
    NatKey(t.nodes, paths, q, c);
    if q == c {
      NewNodeOk(u.nodes, grown, c);
    } else if q != p {
      NodeFrame(t.nodes, u.nodes, paths, grown, q);
    } else {
      NodeFrame(t.nodes, mid, paths, grown, p);
      MidKids(t, mid, paths, p, c, seg);
      LinkKeeps(mid, u.nodes, grown, p, c, seg, x);
    }
  }

  lemma MidKids(t: Trie, mid: seq<Node>, paths: map<int, Path>, p: nat, c: nat, seg: Level)
    requires TrieOk(t, paths) && p in paths && p < |t.nodes| && t.nodes[p].childCount <= |t.nodes[p].children|
    requires Child(t.nodes, p, seg) == 0 && 0 < c < |t.nodes| && c !in paths && |seg| <= MAX_SEGMENT
    requires mid == t.nodes[c := Named(seg).(parent := p)]
    ensures mid[p].childCount <= MAX_CHILDREN
    ensures KidOk(mid, More(paths, p, seg, c), p, c) && mid[p].childCount <= |mid[p].children| && !IsKid(mid, p, c)
    ensures forall d :: 0 < d < |mid| && IsKid(mid, p, d) ==> mid[d].name != seg
  {
    hide FreeChain, SubsOk, Rooted, TableOk, WildcardsOk;
    assert NodeOk(t.nodes, paths, p);
    forall d | IsKid(mid, p, d) ensures IsKid(t.nodes, p, d) && d != c {}
  }

  /** A child that could not be added goes back to the free list: the trie is sound for the same paths. */
  lemma FailedKeeps(t: Trie, u: Trie, paths: map<int, Path>, n: Node)
    requires TrieOk(t, paths) && 0 < t.freeHead < |t.nodes|
    requires u.freeHead == t.freeHead && u.nodeCount == t.nodeCount && u.nodes == t.nodes[t.freeHead := n]
    requires |n.children| == MAX_CHILDREN && t.nodes[t.freeHead].children != [] && n.children[0] == t.nodes[t.freeHead].children[0]
    requires n.subs == map[] && n.subCount == 0
    ensures TrieOk(u, paths)
  {
    hide NodeOk, Rooted, FreeChain;
    HeadIsFree(t, paths);
    FrameKeeps(t.nodes, u.nodes, paths);
    FailedChain(t, u, paths);
  }

  lemma FrameKeeps(a: seq<Node>, b: seq<Node>, paths: map<int, Path>)
    requires Tree(a, paths) && SameLabels(a, b, paths)
    requires forall q :: q in paths && 0 <= q < |a| ==> SameLinks(a[q], b[q])
    ensures Tree(b, paths)
  {
    hide NodeOk, SameLabels, SameLinks, Rooted;
    forall q | q in paths ensures q >= 0 && NodeOk(b, paths, q) {
      NatKey(a, paths, q, 0);
      NodeFrame(a, b, paths, paths, q);
    }
    RootedFrame(a, b, paths);
  }

  lemma FailedChain(t: Trie, u: Trie, paths: map<int, Path>)
    requires TrieOk(t, paths) && 0 < t.freeHead < |t.nodes| && t.nodes[t.freeHead].children != []
    requires u.freeHead == t.freeHead && |u.nodes| == |t.nodes|
    requires forall i :: 0 <= i < |t.nodes| && i != t.freeHead ==> u.nodes[i] == t.nodes[i]
    requires var n := u.nodes[t.freeHead]; |n.children| == MAX_CHILDREN && n.children[0] == t.nodes[t.freeHead].children[0]
    ensures exists chain :: FreeChain(u, paths, chain)
  {
    hide NodeOk, Rooted;
    var chain :| FreeChain(t, paths, chain);
    assert FreeChain(u, paths, chain);
  }

  // ---- subscriptions ----

  lemma SubsAtNode(t: Trie, paths: map<int, Path>, i: nat)
    requires Rooted(t.nodes, paths) && i in paths
    ensures i < |t.nodes| && SubsAt(t, paths, paths[i]) == t.nodes[i].subs
  {
  }

  /** The stored subscriptions are those of before when old nodes keep theirs and new nodes have none. */
  lemma SameSubs(t: Trie, u: Trie, paths: map<int, Path>, more: map<int, Path>)
    requires TrieOk(t, paths) && TrieOk(u, more) && |t.nodes| == |u.nodes|
    requires forall i :: i in paths ==> i in more && more[i] == paths[i]
    requires forall i :: i in paths && 0 <= i < |t.nodes| ==> u.nodes[i].subs == t.nodes[i].subs
    requires forall i :: i in more && i !in paths && 0 <= i < |u.nodes| ==> u.nodes[i].subs == map[]
    ensures forall path :: SubsAt(u, more, path) == SubsAt(t, paths, path)
  {
    hide Rooted, NodeOk, FreeChain, SubsOk;
    assert forall i :: i in more ==> 0 <= i < |u.nodes| by { NatKeys(u.nodes, more); }
    assert forall i :: i in paths ==> 0 <= i < |t.nodes| by { NatKeys(t.nodes, paths); }
    forall path
      ensures SubsAt(u, more, path) == SubsAt(t, paths, path)
    {
      if i :| i in paths && paths[i] == path {
        SubsAtNode(t, paths, i);
        SubsAtNode(u, more, i);
      } else if i :| i in more && more[i] == path {
        SubsAtNode(u, more, i);
      }
    }
  }

  lemma Created(t: Trie, u: Trie, paths: map<int, Path>, p: nat, seg: Level, x: nat)
    requires CanGrow(t, paths, p, seg, x) && Grown(t, u, p, seg, x)
    ensures t.freeHead !in paths && TrieOk(u, More(paths, p, seg, t.freeHead))
    ensures forall path :: SubsAt(u, More(paths, p, seg, t.freeHead), path) == SubsAt(t, paths, path)
    ensures |u.nodes| == |t.nodes| && forall j :: 0 <= j < |t.nodes| ==> u.nodes[j].subs == t.nodes[j].subs
  {
    hide TrieOk, SubsAt, Child, FirstEmpty, More, Home;
    HeadIsFree(t, paths);
    GrownKeeps(t, u, paths, p, seg, x);
    SameSubs(t, u, paths, More(paths, p, seg, t.freeHead));
  }

  lemma NotCreated(t: Trie, u: Trie, paths: map<int, Path>, n: Node)
    requires TrieOk(t, paths) && 0 < t.freeHead < |t.nodes|
    requires u.freeHead == t.freeHead && u.nodeCount == t.nodeCount && u.nodes == t.nodes[t.freeHead := n]
    requires |n.children| == MAX_CHILDREN && t.nodes[t.freeHead].children != [] && n.children[0] == t.nodes[t.freeHead].children[0]
    requires n.subs == map[] && n.subCount == 0
    ensures TrieOk(u, paths)
    ensures forall path :: SubsAt(u, paths, path) == SubsAt(t, paths, path)
    ensures forall j :: 0 <= j < |t.nodes| ==> u.nodes[j].subs == t.nodes[j].subs
  {
    hide TrieOk, SubsAt;
    HeadIsFree(t, paths);
    FailedKeeps(t, u, paths, n);
    SameSubs(t, u, paths, paths);
  }

  lemma NatKeys(nodes: seq<Node>, paths: map<int, Path>)
    requires Rooted(nodes, paths)
    ensures forall i :: i in paths ==> 0 <= i < |nodes|
  {
  }

  lemma NoSubs(t: Trie, paths: map<int, Path>)
    requires forall i :: 0 <= i < |t.nodes| ==> t.nodes[i].subs == map[]
    ensures forall path :: SubsAt(t, paths, path) == map[]
  {
  }

  function Holding(n: Node, subs: map<int, byte>): Node {
    n.(subs := subs, subCount := |subs|)
  }

  /** Storing other subscriptions in one node keeps the trie sound and changes this node's path only. */
  lemma StoreKeeps(t: Trie, u: Trie, paths: map<int, Path>, i: nat, subs: map<int, byte>)
    requires TrieOk(t, paths) && i in paths && i < |t.nodes|
    requires u == t.(nodes := t.nodes[i := Holding(t.nodes[i], subs)])
    requires forall s :: s in subs ==> 0 <= s < MAX_SLOTS
    ensures TrieOk(u, paths)
    ensures SubsAt(u, paths, paths[i]) == subs && SubsAt(t, paths, paths[i]) == t.nodes[i].subs
    ensures forall path :: path != paths[i] ==> SubsAt(u, paths, path) == SubsAt(t, paths, path)
  {
    hide NodeOk, FreeChain, Rooted;
    StoreChain(t, u, paths, i, subs);
    FrameKeeps(t.nodes, u.nodes, paths);
    StoreChangesOne(t, u, paths, i, subs);
  }

  lemma StoreChangesOne(t: Trie, u: Trie, paths: map<int, Path>, i: nat, subs: map<int, byte>)
    requires Rooted(t.nodes, paths) && Rooted(u.nodes, paths) && i in paths && i < |t.nodes|
    requires u.nodes == t.nodes[i := Holding(t.nodes[i], subs)]
    ensures SubsAt(u, paths, paths[i]) == subs && SubsAt(t, paths, paths[i]) == t.nodes[i].subs
    ensures forall path :: path != paths[i] ==> SubsAt(u, paths, path) == SubsAt(t, paths, path)
  {
    NatKeys(t.nodes, paths);
    SubsAtNode(t, paths, i);
    SubsAtNode(u, paths, i);
    hide Rooted;
    forall path | path != paths[i]
      ensures SubsAt(u, paths, path) == SubsAt(t, paths, path)
    {
      if j :| j in paths && paths[j] == path {
        SubsAtNode(t, paths, j);
        SubsAtNode(u, paths, j);
      }
    }
  }

  lemma StoreChain(t: Trie, u: Trie, paths: map<int, Path>, i: nat, subs: map<int, byte>)
    requires TrieOk(t, paths) && i < |t.nodes| && u == t.(nodes := t.nodes[i := Holding(t.nodes[i], subs)])
    ensures exists chain :: FreeChain(u, paths, chain)
  {
    hide NodeOk, Rooted, SubsOk;
    var chain :| FreeChain(t, paths, chain);
    assert FreeChain(u, paths, chain);
  }

  /** t with slot s dropped from the first k nodes. */
  ghost predicate Dropped(t: Trie, u: Trie, s: int, k: nat) {
    && |u.nodes| == |t.nodes| && u.freeHead == t.freeHead && u.nodeCount == t.nodeCount
    && (forall i :: 0 <= i < k && i < |t.nodes| ==> u.nodes[i] == Holding(t.nodes[i], t.nodes[i].subs - {s}))
    && (forall i :: k <= i < |t.nodes| ==> u.nodes[i] == t.nodes[i])
  }

  lemma DroppedKeeps(t: Trie, u: Trie, paths: map<int, Path>, s: int)
    requires TrieOk(t, paths) && Dropped(t, u, s, |t.nodes|)
    ensures TrieOk(u, paths)
    ensures forall path :: SubsAt(u, paths, path) == SubsAt(t, paths, path) - {s}
    ensures forall j :: 0 <= j < |t.nodes| ==> u.nodes[j].subs == t.nodes[j].subs - {s}
  {
    hide NodeOk, Rooted, FreeChain, SubsOk;
    FrameKeeps(t.nodes, u.nodes, paths);
    DroppedChain(t, u, paths, s);
    DroppedSubs(t, u, paths, s);
    DroppedCounts(t, u, paths, s);
  }

  lemma DroppedCounts(t: Trie, u: Trie, paths: map<int, Path>, s: int)
    requires SubsOk(t.nodes, paths) && Dropped(t, u, s, |t.nodes|)
    ensures SubsOk(u.nodes, paths)
    ensures forall j :: 0 <= j < |t.nodes| ==> u.nodes[j].subs == t.nodes[j].subs - {s}
  {
  }

  lemma DroppedSubs(t: Trie, u: Trie, paths: map<int, Path>, s: int)
    requires Rooted(t.nodes, paths) && Rooted(u.nodes, paths) && Dropped(t, u, s, |t.nodes|)
    ensures forall path :: SubsAt(u, paths, path) == SubsAt(t, paths, path) - {s}
  {
    hide Rooted;
    NatKeys(t.nodes, paths);
    forall path
      ensures SubsAt(u, paths, path) == SubsAt(t, paths, path) - {s}
    {
      if j :| j in paths && paths[j] == path {
        SubsAtNode(t, paths, j);
        SubsAtNode(u, paths, j);
      }
    }
  }

  lemma DroppedChain(t: Trie, u: Trie, paths: map<int, Path>, s: int)
    requires TrieOk(t, paths) && Dropped(t, u, s, |t.nodes|)
    ensures exists chain :: FreeChain(u, paths, chain)
  {
    hide NodeOk, Rooted, SubsOk;
    var chain :| FreeChain(t, paths, chain);
    assert FreeChain(u, paths, chain);
  }
}
