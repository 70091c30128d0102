/** Which nodes a published topic collects (trie_match_collect in src/broker/trie.h). */
module TrieMatch {
  import opened Common
  import opened Topics
  import opened TrieModel

  const MAX_MATCHES := 64 // TRIE_MAX_MATCHES

  /** A subscribed node below i whose path from i on matches the remaining levels. */
  ghost predicate Hit(nodes: seq<Node>, paths: map<int, Path>, i: nat, ls: seq<Level>, h: int)
    requires i in paths
  {
    && h in paths && 0 <= h < |nodes| && nodes[h].subCount > 0
    && paths[i] <= paths[h]
    && Matches(paths[h][|paths[i]|..], ls)
  }

  ghost function Self(nodes: seq<Node>, i: nat): seq<nat> {
    if 0 < i < |nodes| && nodes[i].subCount > 0 then [i] else []
  }

  /** All nodes that the recursion would collect without its cap, in its order. */
  ghost function Hits(nodes: seq<Node>, i: nat, ls: seq<Level>): seq<nat>
    requires i < |nodes|
    decreases |ls|
  {
    var n := nodes[i];
    var hash := Self(nodes, n.hashChild);
    if ls == [] then hash + (if n.subCount > 0 then [i] else [])
    else
      hash
      + (if 0 < n.plusChild < |nodes| then Hits(nodes, n.plusChild, ls[1..]) else [])
      + (if |ls[0]| <= MAX_SEGMENT && n.childCount <= |n.children| && Child(nodes, i, ls[0]) != 0
         then Hits(nodes, Child(nodes, i, ls[0]), ls[1..]) else [])
  }

  lemma {:induction false} HitsInRange(nodes: seq<Node>, i: nat, ls: seq<Level>)
    requires i < |nodes|
    ensures forall h :: h in Hits(nodes, i, ls) ==> h < |nodes|
    decreases |ls|
  {
    var n := nodes[i];
    if ls != [] {
      if 0 < n.plusChild < |nodes| {
        HitsInRange(nodes, n.plusChild, ls[1..]);
      }
      if |ls[0]| <= MAX_SEGMENT && n.childCount <= |n.children| && Child(nodes, i, ls[0]) != 0 {
        HitsInRange(nodes, Child(nodes, i, ls[0]), ls[1..]);
      }
    }
  }

  ghost predicate Tree(nodes: seq<Node>, paths: map<int, Path>) {
    && Rooted(nodes, paths)
    && forall p :: p in paths ==> NodeOk(nodes, paths, p)
  }

  lemma KidFacts(nodes: seq<Node>, paths: map<int, Path>, p: nat, c: nat)
    requires Tree(nodes, paths) && p in paths && p < |nodes| && nodes[p].childCount <= |nodes[p].children| && IsKid(nodes, p, c)
    ensures KidOk(nodes, paths, p, c)
  {
    assert NodeOk(nodes, paths, p);
  }

  /** Every path in the tree runs through its prefixes: below i the next node on the way to h is a child of i. */
  lemma {:induction false} ChildTowards(nodes: seq<Node>, paths: map<int, Path>, i: nat, h: nat) returns (c: nat)
    requires Tree(nodes, paths) && i in paths && h in paths && paths[i] <= paths[h] && |paths[i]| < |paths[h]|
    ensures i < |nodes| && nodes[i].childCount <= |nodes[i].children| && IsKid(nodes, i, c) && KidOk(nodes, paths, i, c)
    ensures paths[c] == paths[i] + [paths[h][|paths[i]|]] && paths[c] <= paths[h]
    decreases |paths[h]|
  {
    hide NodeOk;
    var p := nodes[h].parent;
    KidFacts(nodes, paths, p, h);
    assert paths[h] == paths[p] + [nodes[h].name];
    if |paths[p]| == |paths[i]| {
      assert paths[p] == paths[i];
      c := h;
    } else {
      assert paths[i] <= paths[p];
      c := ChildTowards(nodes, paths, i, p);
    }
  }

  /** A child leads to a hit exactly when what follows its name matches what follows the level. */
  lemma HitThrough(nodes: seq<Node>, paths: map<int, Path>, i: nat, c: nat, ls: seq<Level>, h: int)
    requires i in paths && c in paths && |paths[c]| == |paths[i]| + 1 && paths[i] <= paths[c] && ls != []
    requires paths[c][|paths[i]|] != [HASH] && (paths[c][|paths[i]|] == [PLUS] || paths[c][|paths[i]|] == ls[0])
    ensures Hit(nodes, paths, c, ls[1..], h) ==> Hit(nodes, paths, i, ls, h)
    ensures Hit(nodes, paths, i, ls, h) && paths[c] <= paths[h] ==> Hit(nodes, paths, c, ls[1..], h)
  {
    if h in paths && paths[c] <= paths[h] {
      var rel := paths[h][|paths[i]|..];
      assert rel[1..] == paths[h][|paths[c]|..];
      assert rel[0] == paths[c][|paths[i]|];
      assert paths[i] <= paths[h];
    }
  }

  /** The '#' child is the one node with this path. */
  lemma HashChild(nodes: seq<Node>, paths: map<int, Path>, i: nat)
    requires Tree(nodes, paths) && i in paths
    ensures i < |nodes|
    ensures var c := nodes[i].hashChild;
            c != 0 ==> c < |nodes| && c in paths && paths[c] == paths[i] + [[HASH]]
    ensures forall h :: h in paths && paths[h] == paths[i] + [[HASH]] ==> h == nodes[i].hashChild && h != 0
  {
    assert NodeOk(nodes, paths, i);
    var c := nodes[i].hashChild;
    if c != 0 {
      KidFacts(nodes, paths, i, c);
    }
    forall h | h in paths && paths[h] == paths[i] + [[HASH]]
      ensures h == c && h != 0
    {
      var d := ChildTowards(nodes, paths, i, h);
      assert paths[d] == paths[h];
    }
  }

  lemma PlusChild(nodes: seq<Node>, paths: map<int, Path>, i: nat)
    requires Tree(nodes, paths) && i in paths
    ensures i < |nodes|
    ensures var c := nodes[i].plusChild;
            c != 0 ==> c < |nodes| && c in paths && paths[c] == paths[i] + [[PLUS]]
    ensures forall h :: h in paths && paths[h] == paths[i] + [[PLUS]] ==> h == nodes[i].plusChild && h != 0
  {
    assert NodeOk(nodes, paths, i);
    var c := nodes[i].plusChild;
    if c != 0 {
      KidFacts(nodes, paths, i, c);
    }
    forall h | h in paths && paths[h] == paths[i] + [[PLUS]]
      ensures h == c && h != 0
    {
      var d := ChildTowards(nodes, paths, i, h);
      assert paths[d] == paths[h];
    }
  }

  lemma NamedChild(nodes: seq<Node>, paths: map<int, Path>, i: nat, seg: Level)
    requires Tree(nodes, paths) && i in paths
    ensures i < |nodes| && nodes[i].childCount <= |nodes[i].children|
    ensures var c := Child(nodes, i, seg);
            c != 0 ==> c in paths && paths[c] == paths[i] + [seg] && |seg| <= MAX_SEGMENT
    ensures forall h :: h in paths && paths[h] == paths[i] + [seg] ==> h == Child(nodes, i, seg) && h != 0
  {
    assert NodeOk(nodes, paths, i);
    var c := Child(nodes, i, seg);
    if c != 0 {
      KidFacts(nodes, paths, i, c);
    }
    forall h | h in paths && paths[h] == paths[i] + [seg]
      ensures h == c && h != 0
    {
      var d := ChildTowards(nodes, paths, i, h);
      assert paths[d] == paths[h];
      assert nodes[d].name == seg;
      if c != 0 {
        assert paths[c] == paths[d];
      }
    }
  }

  ghost predicate Plain(ls: seq<Level>) {
    forall k :: 0 <= k < |ls| ==> WildcardFree(ls[k])
  }

  lemma PlainIsNoWildcard(ls: seq<Level>)
    requires Plain(ls) && ls != []
    ensures ls[0] != [PLUS] && ls[0] != [HASH] && Plain(ls[1..])
  {
    NoWildcardHead(ls[0]);
  }

  /** Every node collected is subscribed and its filter matches. */
  lemma {:induction false} HitsSound(nodes: seq<Node>, paths: map<int, Path>, i: nat, ls: seq<Level>, h: nat)
    requires Tree(nodes, paths) && i in paths && Plain(ls) && i < |nodes| && h in Hits(nodes, i, ls)
    ensures Hit(nodes, paths, i, ls, h)
    decreases |ls|
  {
    hide NodeOk, Rooted;
    HashChild(nodes, paths, i);
    var n := nodes[i];
    if h in Self(nodes, n.hashChild) {
      assert paths[h][|paths[i]|..] == [[HASH]];
    } else if ls == [] {
      assert paths[h][|paths[i]|..] == [];
    } else {
      PlainIsNoWildcard(ls);
      PlusChild(nodes, paths, i);
      NamedChild(nodes, paths, i, ls[0]);
      if 0 < n.plusChild < |nodes| && h in Hits(nodes, n.plusChild, ls[1..]) {
        HitsSound(nodes, paths, n.plusChild, ls[1..], h);
        HitThrough(nodes, paths, i, n.plusChild, ls, h);
      } else {
        var c := Child(nodes, i, ls[0]);
        HitsSound(nodes, paths, c, ls[1..], h);
        HitThrough(nodes, paths, i, c, ls, h);
      }
    }
  }

  /** Every subscribed node whose filter matches is collected. */
  lemma {:induction false} HitsComplete(nodes: seq<Node>, paths: map<int, Path>, i: nat, ls: seq<Level>, h: nat)
    requires Tree(nodes, paths) && i in paths && Plain(ls) && i < |nodes| && Hit(nodes, paths, i, ls, h)
    ensures h in Hits(nodes, i, ls)
    decreases |ls|
  {
    hide NodeOk;
    var rel := paths[h][|paths[i]|..];
    assert paths[h] == paths[i] + rel;
    HashChild(nodes, paths, i);
    if rel == [] {
      assert paths[h] == paths[i];
    } else if rel[0] == [HASH] {
      assert rel == [[HASH]];
    } else {
      PlainIsNoWildcard(ls);
      PlusChild(nodes, paths, i);
      NamedChild(nodes, paths, i, ls[0]);
      var c := ChildTowards(nodes, paths, i, h);
      assert paths[c][|paths[i]|] == rel[0];
      HitThrough(nodes, paths, i, c, ls, h);
      HitsComplete(nodes, paths, c, ls[1..], h);
    }
  }

  /** No node is collected twice. */
  lemma {:induction false} HitsDistinct(nodes: seq<Node>, paths: map<int, Path>, i: nat, ls: seq<Level>)
    requires Tree(nodes, paths) && i in paths && Plain(ls) && i < |nodes|
    ensures Distinct(Hits(nodes, i, ls))
    decreases |ls|
  {
    hide NodeOk, Rooted;
    HashChild(nodes, paths, i);
    var n := nodes[i];
    if ls != [] {
      PlainIsNoWildcard(ls);
      PlusChild(nodes, paths, i);
      NamedChild(nodes, paths, i, ls[0]);
      var viaPlus := if 0 < n.plusChild < |nodes| then Hits(nodes, n.plusChild, ls[1..]) else [];
      var c := Child(nodes, i, ls[0]);
      var viaName := if |ls[0]| <= MAX_SEGMENT && c != 0 then Hits(nodes, c, ls[1..]) else [];
      if 0 < n.plusChild < |nodes| {
        HitsDistinct(nodes, paths, n.plusChild, ls[1..]);
        Below(nodes, paths, n.plusChild, ls[1..]);
      }
      if c != 0 {
        HitsDistinct(nodes, paths, c, ls[1..]);
        Below(nodes, paths, c, ls[1..]);
      }
      Apart(paths, Self(nodes, n.hashChild), viaPlus, viaName, |paths[i]|, ls[0]);
    }
  }

  /** Everything collected from c on lies below c. */
  lemma Below(nodes: seq<Node>, paths: map<int, Path>, c: nat, ls: seq<Level>)
    requires Tree(nodes, paths) && c in paths && Plain(ls) && c < |nodes|
    ensures forall h :: h in Hits(nodes, c, ls) ==> h in paths && paths[c] <= paths[h]
  {
    hide Tree, Hits, Plain;
    forall h | h in Hits(nodes, c, ls)
      ensures h in paths && paths[c] <= paths[h]
    {
      HitsSound(nodes, paths, c, ls, h);
    }
  }

  /** Three collections that differ in the level at depth d share no node. */
  lemma Apart(paths: map<int, Path>, a: seq<nat>, b: seq<nat>, c: seq<nat>, d: nat, name: Level)
    requires Distinct(a) && Distinct(b) && Distinct(c) && name != [PLUS] && name != [HASH]
    requires forall h :: h in a ==> h in paths && |paths[h]| > d && paths[h][d] == [HASH]
    requires forall h :: h in b ==> h in paths && |paths[h]| > d && paths[h][d] == [PLUS]
    requires forall h :: h in c ==> h in paths && |paths[h]| > d && paths[h][d] == name
    ensures Distinct(a + b + c)
  {
    var all := a + b + c;
    forall x, y | 0 <= x < y < |all| ensures all[x] != all[y] {
      assert x < |a| ==> all[x] in a;
      assert y < |a| ==> all[y] in a;
      assert |a| <= x < |a| + |b| ==> all[x] in b;
      assert |a| <= y < |a| + |b| ==> all[y] in b;
      assert |a| + |b| <= x ==> all[x] in c;
      assert |a| + |b| <= y ==> all[y] in c;
    }
  }

  function FirstMatches(found: seq<nat>, more: seq<nat>): (r: seq<nat>)
    ensures |found| <= MAX_MATCHES ==> |r| <= MAX_MATCHES
  {
    var all := found + more;
    if |found| >= MAX_MATCHES then found else if |all| > MAX_MATCHES then all[..MAX_MATCHES] else all
  }

  /** found is what trie_match_collect collects for the topic. */
  ghost predicate CollectedFor(nodes: seq<Node>, topic: seq<byte>, found: seq<nat>) {
    nodes != [] && found == FirstMatches([], Hits(nodes, 0, Levels(topic, 0)))
  }

  lemma MatchesInTurn(found: seq<nat>, a: seq<nat>, b: seq<nat>)
    ensures FirstMatches(FirstMatches(found, a), b) == FirstMatches(found, a + b)
    ensures FirstMatches(found, []) == found
  {
    assert (found + a) + b == found + (a + b);
    if |found| < MAX_MATCHES && |found + a| > MAX_MATCHES {
      assert ((found + a) + b)[..MAX_MATCHES] == (found + a)[..MAX_MATCHES];
    }
  }

  lemma FirstOf(hits: seq<nat>)
    ensures var found := FirstMatches([], hits);
            && |found| == (if |hits| < 64 then |hits| else 64) && found == hits[..|found|]
            && forall h :: h in found ==> h in hits
  {
    assert [] + hits == hits;
  }

  /** Trie matching is level-by-level matching: the collected nodes are distinct and subscribed, each one's filter
      path matches the topic, and with at most 64 such nodes none is missing. */
  lemma CollectIsMatch(t: Trie, paths: map<int, Path>, ls: seq<Level>)
    requires TrieOk(t, paths) && Plain(ls)
    ensures var found := FirstMatches([], Hits(t.nodes, 0, ls));
            && Distinct(found) && |found| == (if |Hits(t.nodes, 0, ls)| < 64 then |Hits(t.nodes, 0, ls)| else 64)
            && (forall h :: h in found ==> h in paths && h < |t.nodes| && t.nodes[h].subCount > 0 && Matches(paths[h], ls))
            && (|Hits(t.nodes, 0, ls)| <= 64 ==>
                  forall h :: h in paths && 0 <= h < |t.nodes| && t.nodes[h].subCount > 0 && Matches(paths[h], ls) ==> h in found)
  {
    hide NodeOk, FreeChain, SubsOk, Hits, Matches, FirstMatches;
    var hits := Hits(t.nodes, 0, ls);
    HitsDistinct(t.nodes, paths, 0, ls);
    FirstOf(hits);
    forall h | h in hits
      ensures h in paths && h < |t.nodes| && t.nodes[h].subCount > 0 && Matches(paths[h], ls)
    {
      HitsSound(t.nodes, paths, 0, ls, h);
      assert paths[h][0..] == paths[h];
    }
    forall h | h in paths && 0 <= h < |t.nodes| && t.nodes[h].subCount > 0 && Matches(paths[h], ls)
      ensures h in hits
    {
      assert paths[h][0..] == paths[h];
      HitsComplete(t.nodes, paths, 0, ls, h);
    }
  }
}
