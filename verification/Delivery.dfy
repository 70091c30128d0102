/** From the filter a client subscribed to the queue a PUBLISH ends in: the trie, the matcher and the fan-out together. */
module Delivery {
  import opened Common
  import opened Broker
  import opened BrokerInv
  import opened FanoutSteps
  import opened Runs
  import opened BrokerTurns
  import opened Topics
  import opened TrieModel
  import opened TrieMatch
  import opened TrieSteps

  // ---- filters as they are stored ----

  ghost predicate ShortLevels(ls: seq<Level>) {
    forall k :: 0 <= k < |ls| ==> |ls[k]| <= 64
  }

  /** A filter is stored as it reads exactly when no level is longer than 64 bytes. */
  lemma {:induction false} CutAllIsIdentity(ls: seq<Level>)
    ensures CutAll(ls) == ls <==> ShortLevels(ls)
  {
    if ls != [] {
      CutAllIsIdentity(ls[1..]);
      assert CutAll(ls)[1..] == CutAll(ls[1..]);
      assert forall k :: 1 <= k < |ls| ==> ls[1..][k - 1] == ls[k];
    }
  }

  /** Two filters share a node exactly when they have equally many levels that agree in their first 64 bytes. */
  lemma SharedNodeIff(f: seq<byte>, g: seq<byte>)
    ensures var fs, gs := Levels(f, 0), Levels(g, 0);
            Stored(f) == Stored(g) <==>
              |fs| == |gs| && forall k :: 0 <= k < |fs| ==> fs[k] == gs[k] || (|fs[k]| >= 64 && |gs[k]| >= 64 && fs[k][..64] == gs[k][..64])
  {
    hide Cut;
    var fs, gs := Levels(f, 0), Levels(g, 0);
    CutPointwise(fs);
    CutPointwise(gs);
    forall k | 0 <= k < |fs| && k < |gs|
      ensures Cut(fs[k]) == Cut(gs[k]) <==> fs[k] == gs[k] || (|fs[k]| >= 64 && |gs[k]| >= 64 && fs[k][..64] == gs[k][..64])
    {
      CutAgrees(fs[k], gs[k]);
    }
  }

  lemma CutAgrees(l: Level, m: Level)
    ensures Cut(l) == Cut(m) <==> l == m || (|l| >= 64 && |m| >= 64 && l[..64] == m[..64])
  {
    assert l[..|l|] == l && m[..|m|] == m;
  }

  lemma {:induction false} CutPointwise(ls: seq<Level>)
    ensures |CutAll(ls)| == |ls| && forall k :: 0 <= k < |ls| ==> CutAll(ls)[k] == Cut(ls[k])
  {
    if ls != [] {
      CutPointwise(ls[1..]);
      assert CutAll(ls) == [Cut(ls[0])] + CutAll(ls[1..]);
      assert forall k :: 1 <= k < |ls| ==> ls[1..][k - 1] == ls[k];
    }
  }

  /** Different filters do: a level of 65 bytes in any position, whatever its last byte is. */
  lemma LongLevelsCollide(before: seq<Level>, l: Level, x: byte, y: byte, after: seq<Level>)
    requires |l| == 64 && x != y
    ensures before + [l + [x]] + after != before + [l + [y]] + after
    ensures CutAll(before + [l + [x]] + after) == CutAll(before + [l + [y]] + after)
  {
    var fs, gs := before + [l + [x]] + after, before + [l + [y]] + after;
    assert fs[|before|][64] == x && gs[|before|][64] == y;
    assert Cut(l + [x]) == l && Cut(l + [y]) == l;
    CutPointwise(fs);
    CutPointwise(gs);
    forall k | 0 <= k < |fs| ensures CutAll(fs)[k] == CutAll(gs)[k] {
      assert k != |before| ==> fs[k] == gs[k];
    }
  }

  // ---- the trie and the character-level matcher ----

  /** What the character-level matcher asks beyond the trie: neither side trailing, '#' must take a level of its own; both
      trailing, nothing; only the filter, never; only the topic, a '#' at the end. */
  ghost predicate Stricter(f: seq<byte>, t: seq<byte>) {
    if Trails(f) then Trails(t)
    else if Trails(t) then EndsInHash(Levels(f, 0))
    else MatchesSome(Levels(f, 0), Levels(t, 0))
  }

  ghost predicate EndsInHash(fs: seq<Level>) { fs != [] && fs[|fs| - 1] == [HASH] }

  /** For every valid filter and every topic, trailing delimiters included, topic_matches holds exactly when the levels of the
      filter as sent match and the stricter condition holds. */
  lemma MatcherIsStricter(f: seq<byte>, t: seq<byte>)
    requires ValidFilter(Split(f))
    ensures CharMatch(f, t) <==> Matches(Levels(f, 0), Levels(t, 0)) && Stricter(f, t)
  {
    hide Split, CharMatch, Levels, CutAll, Trails, Matches, MatchesSome;
    var fl, tl := Levels(f, 0), Levels(t, 0);
    LevelsAreSplit(f, 0);
    LevelsAreSplit(t, 0);
    assert f[0..] == f && t[0..] == t;
    CharMatchIsLevelMatch(f, t);
    if !Trails(f) {
      LastNotEmpty(f);
    }
    if !Trails(t) {
      LastNotEmpty(t);
    }
    if Trails(f) && Trails(t) {
      BothTrail(fl, tl);
    } else if Trails(f) {
      FilterTrails(fl, tl);
    } else if Trails(t) {
      TopicTrails(fl, tl);
    } else {
      ParentLevelOnly(fl, tl);
    }
  }

  /** With levels of at most 64 bytes the trie matches the filter as sent: topic_matches holds exactly when the trie matches
      and the stricter condition holds. */
  lemma TrieAgreesWithMatcher(f: seq<byte>, t: seq<byte>)
    requires ValidFilter(Split(f)) && ShortLevels(Split(f))
    ensures CharMatch(f, t) <==> Matches(Stored(f), Levels(t, 0)) && Stricter(f, t)
  {
    hide Split, CharMatch, Levels, CutAll, Trails, Matches, MatchesSome, Stricter;
    MatcherIsStricter(f, t);
    LevelsAreSplit(f, 0);
    assert f[0..] == f;
    ShortPrefix(Split(f), Levels(f, 0));
    CutAllIsIdentity(Levels(f, 0));
  }

  /** A filter with a level over 64 bytes is never matched by a topic both as sent and as stored. */
  lemma {:induction false} LongNeverBoth(fs: seq<Level>, ts: seq<Level>)
    requires !ShortLevels(fs)
    ensures !(Matches(fs, ts) && Matches(CutAll(fs), ts))
  {
    var cs := CutAll(fs);
    assert cs[0] == Cut(fs[0]) && cs[1..] == CutAll(fs[1..]) && |cs| == |fs| by { CutPointwise(fs); }
    if fs[0] == [HASH] {
      assert |fs| > 1;
    } else if |fs[0]| <= MAX_SEGMENT {
      assert !ShortLevels(fs[1..]) by {
        var k :| 0 <= k < |fs| && |fs[k]| > MAX_SEGMENT;
        assert fs[1..][k - 1] == fs[k];
      }
      if ts != [] {
        LongNeverBoth(fs[1..], ts[1..]);
      }
    } else {
      assert |cs[0]| == MAX_SEGMENT;
    }
  }

  /** What the cut does, for every filter and every topic: the trie delivers a topic that the filter as sent does not match if
      and only if a level of the filter is over 64 bytes and the topic matches the cut filter; it misses one that the filter
      as sent matches if and only if a level is over 64 bytes and the topic matches the filter as sent. */
  lemma CutDeliversIff(f: seq<byte>, t: seq<byte>)
    ensures var fs, ts := Levels(f, 0), Levels(t, 0);
            && (Matches(Stored(f), ts) && !Matches(fs, ts) <==> !ShortLevels(fs) && Matches(Stored(f), ts))
            && (Matches(fs, ts) && !Matches(Stored(f), ts) <==> !ShortLevels(fs) && Matches(fs, ts))
  {
    hide Matches, Levels, CutAll;
    var fs := Levels(f, 0);
    CutAllIsIdentity(fs);
    if !ShortLevels(fs) {
      LongNeverBoth(fs, Levels(t, 0));
    }
  }

  lemma ShortPrefix(ls: seq<Level>, first: seq<Level>)
    requires ShortLevels(ls) && first <= ls
    ensures ShortLevels(first)
  {
    forall k | 0 <= k < |first| ensures |first[k]| <= MAX_SEGMENT {
      assert first[k] == ls[k];
    }
  }

  lemma {:induction false} LastNotEmpty(s: seq<byte>)
    requires !Trails(s)
    ensures Split(s)[|Split(s)| - 1] != []
    decreases |s|
  {
    hide LevelEnd;
    SplitOnce(s);
    var e := LevelEnd(s, 0);
    if e < |s| {
      LastNotEmpty(s[e + 1..]);
    }
  }

  /** Two empty last levels match each other. */
  lemma {:induction false} BothTrail(fl: seq<Level>, tl: seq<Level>)
    requires ValidFilter(fl + [[]])
    ensures MatchesSome(fl + [[]], tl + [[]]) <==> Matches(fl, tl)
  {
    hide ValidFilter;
    if fl == [] {
      assert fl + [[]] == [[]];
      assert tl != [] ==> (tl + [[]])[1..] == tl[1..] + [[]];
    } else {
      NoHashBefore(fl, []);
      assert (fl + [[]])[1..] == fl[1..] + [[]];
      TailValid(fl + [[]], fl[1..] + [[]]);
      if tl == [] {
        assert tl + [[]] == [[]];
        assert fl[1..] + [[]] != [] && !MatchesSome(fl[1..] + [[]], []);
      } else {
        assert (tl + [[]])[1..] == tl[1..] + [[]];
        BothTrail(fl[1..], tl[1..]);
      }
    }
  }

  lemma NoHashBefore(fl: seq<Level>, last: Level)
    requires ValidFilter(fl + [last]) && fl != []
    ensures fl[0] != [HASH]
  {
    assert (fl + [last])[0] == fl[0];
  }

  /** An empty last level of the filter matches no other level. */
  lemma {:induction false} FilterTrails(fl: seq<Level>, tl: seq<Level>)
    requires ValidFilter(fl + [[]]) && tl != [] && tl[|tl| - 1] != []
    ensures !MatchesSome(fl + [[]], tl)
  {
    hide ValidFilter;
    if fl == [] {
      assert fl + [[]] == [[]];
    } else {
      NoHashBefore(fl, []);
      assert (fl + [[]])[1..] == fl[1..] + [[]];
      TailValid(fl + [[]], fl[1..] + [[]]);
      if |tl| == 1 {
        assert tl[1..] == [];
      } else {
        FilterTrails(fl[1..], tl[1..]);
      }
    }
  }

  /** An empty last level of the topic is taken by '#' or by '+' only. */
  lemma {:induction false} TopicTrails(fl: seq<Level>, tl: seq<Level>)
    requires ValidFilter(fl) && fl != [] && fl[|fl| - 1] != []
    ensures MatchesSome(fl, tl + [[]]) && !EndsInPlus(fl) <==> Matches(fl, tl) && EndsInHash(fl)
  {
    if tl == [] {
      assert tl + [[]] == [[]];
      OneEmptyLevel(fl);
    } else {
      assert (tl + [[]])[1..] == tl[1..] + [[]];
      if |fl| > 1 {
        TailValid(fl, fl[1..]);
        TopicTrails(fl[1..], tl[1..]);
      }
    }
  }

  // ---- who a topic reaches ----

  ghost predicate PlainTopic(topic: seq<byte>) { PLUS !in topic && HASH !in topic }

  lemma {:induction false} PlainLevels(topic: seq<byte>, pos: nat)
    requires pos <= |topic| && PlainTopic(topic)
    ensures Plain(Levels(topic, pos))
    decreases |topic| - pos
  {
    if pos < |topic| {
      var e := LevelEnd(topic, pos);
      PlainLevels(topic, Behind(topic, e));
      assert WildcardFree(topic[pos..e]);
      assert Levels(topic, pos)[1..] == Levels(topic, Behind(topic, e));
    }
  }

  /** The slot has subscribed to some filter that matches the topic. */
  ghost predicate Wanted(t: Trie, paths: map<int, Path>, topic: seq<byte>, slot: int) {
    exists path :: slot in SubsAt(t, paths, path) && Matches(path, Levels(topic, 0))
  }

  /** The subscriptions of a slot are those of the filters it sent. */
  ghost predicate SentBy(t: Trie, paths: map<int, Path>, slot: int, sent: set<seq<byte>>) {
    forall path :: slot in SubsAt(t, paths, path) <==> exists f :: f in sent && Stored(f) == path
  }

  /** The slot has sent a filter that the topic matches, level by level. */
  ghost predicate Asked(sent: set<seq<byte>>, topic: seq<byte>) {
    exists f :: f in sent && Matches(Levels(f, 0), Levels(topic, 0))
  }

  /** In the filters a client sent: it wants a topic without having asked for it if and only if the topic matches none of them,
      but the cut form of one with a level over 64 bytes; it has asked for one without wanting it if and only if each filter
      that the topic matches has such a level, and the topic matches no cut form. */
  lemma WantedIsAskedIff(t: Trie, paths: map<int, Path>, topic: seq<byte>, slot: int, sent: set<seq<byte>>)
    requires SentBy(t, paths, slot, sent)
    ensures Wanted(t, paths, topic, slot) <==> exists f :: f in sent && Matches(Stored(f), Levels(topic, 0))
    ensures Wanted(t, paths, topic, slot) && !Asked(sent, topic) <==>
              && !Asked(sent, topic)
              && exists f :: f in sent && !ShortLevels(Levels(f, 0)) && Matches(Stored(f), Levels(topic, 0))
    ensures Asked(sent, topic) && !Wanted(t, paths, topic, slot) <==>
              && Asked(sent, topic)
              && forall f :: f in sent ==>
                   && !Matches(Stored(f), Levels(topic, 0))
                   && (Matches(Levels(f, 0), Levels(topic, 0)) ==> !ShortLevels(Levels(f, 0)))
  {
    hide Matches, Levels, SubsAt, CutAll, ShortLevels;
    forall f: seq<byte> | f in sent
      ensures ShortLevels(Levels(f, 0)) ==> Stored(f) == Levels(f, 0)
    {
      CutAllIsIdentity(Levels(f, 0));
    }
    if Wanted(t, paths, topic, slot) {
      var path :| slot in SubsAt(t, paths, path) && Matches(path, Levels(topic, 0));
      var f :| f in sent && Stored(f) == path;
      assert Matches(Stored(f), Levels(topic, 0));
    }
    if f :| f in sent && Matches(Stored(f), Levels(topic, 0)) {
      assert slot in SubsAt(t, paths, Stored(f));
    }
  }

  /** A collected node carries only slots that want the topic, and with at most 64 matching nodes it misses none. */
  lemma CollectedIsWanted(t: Trie, paths: map<int, Path>, topic: seq<byte>, slot: int)
    requires TrieOk(t, paths) && PlainTopic(topic)
    ensures var found := FirstMatches([], Hits(t.nodes, 0, Levels(topic, 0)));
            && (forall k :: 0 <= k < |found| ==> found[k] < |t.nodes|)
            && (Subscribed(Picked(SubsOf(t.nodes), found), slot) ==> Wanted(t, paths, topic, slot))
            && (|Hits(t.nodes, 0, Levels(topic, 0))| <= 64 && Wanted(t, paths, topic, slot) ==>
                  Subscribed(Picked(SubsOf(t.nodes), found), slot))
  {
    hide TrieModel.NodeOk, Rooted, FreeChain, SubsOk, Hits, FirstMatches, Matches, SubsAt, Levels, Wanted, Subscribed;
    PlainLevels(topic, 0);
    CollectIsMatch(t, paths, Levels(topic, 0));
    var found := FirstMatches([], Hits(t.nodes, 0, Levels(topic, 0)));
    assert forall k :: 0 <= k < |found| ==> found[k] in found;
    if Subscribed(Picked(SubsOf(t.nodes), found), slot) {
      FoundIsWanted(t, paths, topic, slot, found);
    }
    if |Hits(t.nodes, 0, Levels(topic, 0))| <= 64 && Wanted(t, paths, topic, slot) {
      WantedIsFound(t, paths, topic, slot, found);
    }
  }

  lemma FoundIsWanted(t: Trie, paths: map<int, Path>, topic: seq<byte>, slot: int, found: seq<nat>)
    requires TrieOk(t, paths) && (forall k :: 0 <= k < |found| ==> found[k] < |t.nodes|)
    requires forall h :: h in found ==> h in paths && Matches(paths[h], Levels(topic, 0))
    requires Subscribed(Picked(SubsOf(t.nodes), found), slot)
    ensures Wanted(t, paths, topic, slot)
  {
    hide TrieModel.NodeOk, FreeChain, SubsOk, Matches, SubsAt, Levels;
    var k :| 0 <= k < |found| && slot in Picked(SubsOf(t.nodes), found)[k];
    assert found[k] in found;
    SubsAtNode(t, paths, found[k]);
    assert slot in SubsAt(t, paths, paths[found[k]]);
  }

  lemma WantedIsFound(t: Trie, paths: map<int, Path>, topic: seq<byte>, slot: int, found: seq<nat>)
    requires TrieOk(t, paths) && (forall k :: 0 <= k < |found| ==> found[k] < |t.nodes|)
    requires forall h :: h in paths && 0 <= h < |t.nodes| && t.nodes[h].subCount > 0 && Matches(paths[h], Levels(topic, 0)) ==> h in found
    requires Wanted(t, paths, topic, slot)
    ensures Subscribed(Picked(SubsOf(t.nodes), found), slot)
  {
    hide TrieModel.NodeOk, FreeChain, Matches, SubsAt, Levels, Rooted, SubsOk;
    var path :| slot in SubsAt(t, paths, path) && Matches(path, Levels(topic, 0));
    var h := HolderOf(t, paths, path, slot);
    var k :| 0 <= k < |found| && found[k] == h;
    assert slot in Picked(SubsOf(t.nodes), found)[k];
  }

  lemma HolderOf(t: Trie, paths: map<int, Path>, path: Path, slot: int) returns (h: nat)
    requires Rooted(t.nodes, paths) && SubsOk(t.nodes, paths) && slot in SubsAt(t, paths, path)
    ensures h in paths && paths[h] == path && h < |t.nodes| && slot in t.nodes[h].subs && t.nodes[h].subCount > 0
  {
    h :| 0 <= h < |t.nodes| && h in paths && paths[h] == path;
    SubsAtNode(t, paths, h);
  }

  /** The broker's nodes are the trie's, and matches are the subscriptions that trie_match_collect finds for the topic. */
  ghost predicate Collected(b: Broker, t: Trie, topic: seq<byte>, matches: seq<map<int, byte>>) {
    && t.nodes != [] && b.nodes == SubsOf(t.nodes)
    && var found := FirstMatches([], Hits(t.nodes, 0, Levels(topic, 0)));
       (forall k :: 0 <= k < |found| ==> found[k] < |t.nodes|) && matches == Picked(b.nodes, found)
  }

  /** End to end, in every reachable state: one PUBLISH on a wildcard-free topic that matches at most 64 subscribed
      filters starts exactly one delivery to every active client with a matching subscription and none to anybody else. */
  lemma DeliveredExactly(b: Broker, t: Trie, paths: map<int, Path>, i: nat, pub: Incoming, topic: seq<byte>,
                         matches: seq<map<int, byte>>, started: seq<int>)
    requires Shapes(b) && i < |b.clients| && FansOut(b, i, pub) && started == PublishReceived(b, i, pub, matches).1
    requires Collected(b, t, topic, matches) && |Hits(t.nodes, 0, Levels(topic, 0))| <= 64
    requires PlainTopic(topic) && TrieOk(t, paths)
    requires PublishPossible(b, i, matches) && Inv(b)
    ensures Distinct(started) && forall j :: j in started <==> IsActive(b.clients, j) && Wanted(t, paths, topic, j)
  {
    hide Inv, TrieOk, PublishReceived, Hits, FirstMatches, Levels, Picked, Wanted, Subscribed;
    FanOutIsExact(b, i, pub, matches);
    forall j
      ensures Subscribed(matches, j) <==> Wanted(t, paths, topic, j)
    {
      CollectedIsWanted(t, paths, topic, j);
    }
  }

  /** The same for QoS 0 and 1, without any word of the ceremony: each active client with a matching subscription, and nobody
      else, if and only if both pools have something left. */
  lemma LowQosDelivered(b: Broker, t: Trie, paths: map<int, Path>, i: nat, pub: Incoming, topic: seq<byte>,
                        matches: seq<map<int, byte>>, started: seq<int>)
    requires Shapes(b) && i < |b.clients| && pub.qos <= 1 && started == PublishReceived(b, i, pub, matches).1
    requires Collected(b, t, topic, matches) && |Hits(t.nodes, 0, Levels(topic, 0))| <= 64
    requires PlainTopic(topic) && TrieOk(t, paths)
    requires PublishPossible(b, i, matches) && Inv(b)
    ensures Distinct(started)
    ensures forall j :: j in started <==>
              b.p.msgFree != [] && b.p.bufFree != [] && IsActive(b.clients, j) && Wanted(t, paths, topic, j)
  {
    hide Inv, TrieOk, PublishReceived, Hits, FirstMatches, Levels, Picked, Wanted, Subscribed;
    LowQosFanOut(b, i, pub, matches);
    forall j
      ensures Subscribed(matches, j) <==> Wanted(t, paths, topic, j)
    {
      CollectedIsWanted(t, paths, topic, j);
    }
  }

  /** On a wildcard-free topic with at most 64 matching nodes the deliveries started are those wanted. */
  ghost predicate ReachesExactly(b: Broker, t: Trie, paths: map<int, Path>, i: nat, pub: Incoming, topic: seq<byte>, started: seq<int>) {
    && Shapes(b) && i < |b.clients| && t.nodes != []
    && (PlainTopic(topic) && |Hits(t.nodes, 0, Levels(topic, 0))| <= 64 && FansOut(b, i, pub) ==>
          forall j :: j in started <==> IsActive(b.clients, j) && Wanted(t, paths, topic, j))
  }

  lemma DeliveredWhenPlain(b: Broker, t: Trie, paths: map<int, Path>, i: nat, pub: Incoming, topic: seq<byte>,
                           matches: seq<map<int, byte>>, started: seq<int>)
    requires Shapes(b) && i < |b.clients| && started == PublishReceived(b, i, pub, matches).1
    requires Collected(b, t, topic, matches) && TrieOk(t, paths)
    requires PublishPossible(b, i, matches) && Inv(b)
    ensures ReachesExactly(b, t, paths, i, pub, topic, started)
  {
    hide Inv, TrieOk, PublishReceived, Hits, FirstMatches, Levels, Picked, Wanted, IsActive, FansOut, PlainTopic, PublishPossible;
    if PlainTopic(topic) && |Hits(t.nodes, 0, Levels(topic, 0))| <= 64 && FansOut(b, i, pub) {
      DeliveredExactly(b, t, paths, i, pub, topic, matches, started);
    }
  }
}
