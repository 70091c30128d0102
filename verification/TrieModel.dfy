/** The topic trie as values (src/broker/trie.h): an array of nodes, a free list threaded through it, and the
    filter path each allocated node stands for. */
module TrieModel {
  import opened Common
  import opened Probing
  import opened Topics

  const MAX_CHILDREN := 32  // LLMQ_TRIE_MAX_CHILDREN
  const MAX_SEGMENT := 64   // LLMQ_TRIE_MAX_SEGMENT
  const TABLE_SIZE := 64    // TRIE_CHILD_HASH_SIZE
  const MAX_SLOTS := 4096   // TRIE_FD_SLOTS * BITS_PER_SLOT

  type Path = seq<Level>

  /** trie_node. subs maps the slots whose bit is set to the generation stored beside it. 0 is no node. */
  datatype Node = Node(subs: map<int, byte>, subCount: int, parent: nat, plusChild: nat, hashChild: nat,
                       table: seq<nat>, children: seq<nat>, childCount: nat, name: Level, isPlus: bool, isHash: bool)

  /** What memset(0) leaves. */
  const ZERO := Node(map[], 0, 0, 0, 0, Zeros(TABLE_SIZE), Zeros(MAX_CHILDREN), 0, [], false, false)

  function Zeros(n: nat): (s: seq<nat>)
    ensures |s| == n
    ensures forall i :: 0 <= i < n ==> s[i] == 0
  {
    if n == 0 then [] else Zeros(n - 1) + [0]
  }

  datatype Trie = Trie(nodes: seq<Node>, freeHead: nat, nodeCount: nat)

  /** FNV-1a over a segment. */
  function Fnv(seg: Level, i: nat, hash: bv32): bv32
    requires i <= |seg|
    decreases |seg| - i
  {
    if i == |seg| then hash else Fnv(seg, i + 1, (hash ^ (seg[i] as bv32)) * 16777619)
  }

  /** trie_hash_segment masked to the table. */
  function Home(seg: Level): (h: nat)
    ensures h < TABLE_SIZE
  {
    (Fnv(seg, 0, 2166136261) as int) % TABLE_SIZE
  }

  /** Segments are cut at 64 bytes when a filter is stored. */
  function Cut(l: Level): Level { if |l| > MAX_SEGMENT then l[..MAX_SEGMENT] else l }

  function CutAll(ls: seq<Level>): seq<Level> {
    if ls == [] then [] else [Cut(ls[0])] + CutAll(ls[1..])
  }

  /** The path under which a filter is stored. */
  function Stored(filter: seq<byte>): Path { CutAll(Levels(filter, 0)) }

  /** The subscriptions of all trie nodes. */
  function SubsOf(nodes: seq<Node>): (s: seq<map<int, byte>>)
    ensures |s| == |nodes|
    ensures forall k :: 0 <= k < |nodes| ==> s[k] == nodes[k].subs
  {
    if nodes == [] then [] else SubsOf(nodes[..|nodes| - 1]) + [nodes[|nodes| - 1].subs]
  }

  ghost predicate IsKid(nodes: seq<Node>, p: nat, c: nat)
    requires p < |nodes| && nodes[p].childCount <= |nodes[p].children|
  {
    exists k :: 0 <= k < nodes[p].childCount && nodes[p].children[k] == c
  }

  /** The stored record of a child agrees with its path. */
  ghost predicate KidOk(nodes: seq<Node>, paths: map<int, Path>, p: nat, c: nat)
    requires p in paths
  {
    && 0 < c < |nodes| && c in paths
    && nodes[c].parent == p
    && paths[c] == paths[p] + [nodes[c].name]
    && |nodes[c].name| <= MAX_SEGMENT
    && nodes[c].isPlus == (nodes[c].name == [PLUS])
    && nodes[c].isHash == (nodes[c].name == [HASH])
  }

  /** The child hash table of p holds exactly its children, each once and reachable from its home cell. */
  ghost predicate TableOk(nodes: seq<Node>, p: nat)
    requires p < |nodes| && nodes[p].childCount <= |nodes[p].children|
  {
    var t := nodes[p].table;
    && |t| == TABLE_SIZE
    && (forall x :: 0 <= x < TABLE_SIZE && t[x] != 0 ==> t[x] < |nodes| && IsKid(nodes, p, t[x]))
    && (forall x, y :: 0 <= x < y < TABLE_SIZE && t[x] != 0 ==> t[x] != t[y])
    && (forall c :: c != 0 && IsKid(nodes, p, c) ==> c in t)
    && (forall x :: 0 <= x < TABLE_SIZE && t[x] != 0 ==> ReachesCell(nodes, t, x))
  }

  ghost predicate ReachesCell(nodes: seq<Node>, t: seq<nat>, x: int)
    requires |t| == TABLE_SIZE && 0 <= x < TABLE_SIZE && t[x] < |nodes|
  {
    forall y :: 0 <= y < TABLE_SIZE && Cyc(Home(nodes[t[x]].name), y, x) ==> t[y] != 0
  }

  /** The direct wildcard pointers agree with the children. */
  ghost predicate WildcardsOk(nodes: seq<Node>, p: nat)
    requires p < |nodes| && nodes[p].childCount <= |nodes[p].children|
  {
    && (forall c :: 0 < c < |nodes| && IsKid(nodes, p, c) ==>
          (nodes[c].isPlus <==> nodes[p].plusChild == c) && (nodes[c].isHash <==> nodes[p].hashChild == c))
    && (nodes[p].plusChild != 0 ==> IsKid(nodes, p, nodes[p].plusChild))
    && (nodes[p].hashChild != 0 ==> IsKid(nodes, p, nodes[p].hashChild))
  }

  ghost predicate NodeOk(nodes: seq<Node>, paths: map<int, Path>, p: nat)
    requires p in paths
  {
    && p < |nodes|
    && |nodes[p].children| == MAX_CHILDREN && nodes[p].childCount <= MAX_CHILDREN
    && (forall k :: 0 <= k < nodes[p].childCount ==> KidOk(nodes, paths, p, nodes[p].children[k]))
    && (forall k, l :: 0 <= k < l < nodes[p].childCount ==> nodes[p].children[k] != nodes[p].children[l])
    && TableOk(nodes, p)
    && WildcardsOk(nodes, p)
  }

  /** Different nodes stand for different paths, and every node but the root hangs below its parent. */
  ghost predicate Rooted(nodes: seq<Node>, paths: map<int, Path>) {
    && 0 in paths && paths[0] == []
    && (forall i :: i in paths ==> 0 <= i < |nodes|)
    && (forall i, j :: i in paths && j in paths && paths[i] == paths[j] ==> i == j)
    && (forall i :: i in paths && i != 0 ==> Hangs(nodes, paths, i))
  }

  /** Node i is a child of its parent. */
  ghost predicate Hangs(nodes: seq<Node>, paths: map<int, Path>, i: int)
    requires 0 <= i < |nodes|
  {
    && nodes[i].parent in paths && nodes[i].parent < |nodes|
    && nodes[nodes[i].parent].childCount <= |nodes[nodes[i].parent].children|
    && IsKid(nodes, nodes[i].parent, i)
  }

  /** The free list holds exactly the nodes without a path. */
  ghost predicate FreeChain(t: Trie, paths: map<int, Path>, chain: seq<int>) {
    && Distinct(chain)
    && (forall k :: 0 <= k < |chain| ==> 0 < chain[k] < |t.nodes| && chain[k] !in paths)
    && (forall i :: 0 < i < |t.nodes| && i !in paths ==> i in chain)
    && t.freeHead == ChainAt(chain, 0)
    && (forall k :: 0 <= k < |chain| ==> |t.nodes[chain[k]].children| == MAX_CHILDREN
                                         && t.nodes[chain[k]].children[0] == ChainAt(chain, k + 1))
  }

  ghost function ChainAt(chain: seq<int>, k: nat): int {
    if k < |chain| then chain[k] else 0
  }

  /** Counters agree with the bits, and a node off the tree has none. */
  ghost predicate SubsOk(nodes: seq<Node>, paths: map<int, Path>) {
    forall i :: 0 <= i < |nodes| ==>
      && nodes[i].subCount == |nodes[i].subs|
      && (i !in paths ==> nodes[i].subs == map[])
      && (forall s :: s in nodes[i].subs ==> 0 <= s < MAX_SLOTS)
  }

  ghost predicate TrieOk(t: Trie, paths: map<int, Path>) {
    && t.nodes != []
    && Rooted(t.nodes, paths)
    && (forall p :: p in paths ==> NodeOk(t.nodes, paths, p))
    && (exists chain :: FreeChain(t, paths, chain))
    && t.nodeCount == |paths|
    && SubsOk(t.nodes, paths)
  }

  /** The subscriptions stored for a filter path. */
  ghost function SubsAt(t: Trie, paths: map<int, Path>, path: Path): map<int, byte>
  {
    if i :| 0 <= i < |t.nodes| && i in paths && paths[i] == path then t.nodes[i].subs else map[]
  }

  ghost predicate HasPath(paths: map<int, Path>, path: Path) {
    exists i :: i in paths && paths[i] == path
  }

  /** The child of p with this name, or 0. */
  ghost function Child(nodes: seq<Node>, p: nat, seg: Level): (c: nat)
    requires p < |nodes| && nodes[p].childCount <= |nodes[p].children|
    ensures c != 0 ==> c < |nodes| && IsKid(nodes, p, c) && nodes[c].name == seg
    ensures c == 0 ==> forall d :: 0 < d < |nodes| && IsKid(nodes, p, d) ==> nodes[d].name != seg
  {
    if c :| 0 < c < |nodes| && IsKid(nodes, p, c) && nodes[c].name == seg then c else 0
  }
}
