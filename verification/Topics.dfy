/** Topic levels and filter matching (src/mqtt/packet.h, src/broker/subs.h; section 4.7 of MQTT Version 3.1.1,
    without its rule on topics that begin with a dollar sign). */
module Topics {
  import opened Common

  const SLASH: byte := 0x2F
  const PLUS: byte := 0x2B
  const HASH: byte := 0x23

  type Level = seq<byte>

  /** Where the level that starts at pos ends. */
  function LevelEnd(s: seq<byte>, pos: nat): (e: nat)
    requires pos <= |s|
    ensures pos <= e <= |s|
    ensures forall k :: pos <= k < e ==> s[k] != SLASH
    ensures e < |s| ==> s[e] == SLASH
    decreases |s| - pos
  {
    if pos < |s| && s[pos] != SLASH then LevelEnd(s, pos + 1) else pos
  }

  /** Position behind the delimiter. */
  function Behind(s: seq<byte>, e: nat): (p: nat)
    requires e <= |s|
    ensures e <= p <= |s| && (p == e <==> e == |s|)
  {
    if e < |s| then e + 1 else e
  }

  /** The levels the segment iterator yields from pos on: a trailing delimiter yields no empty last level. */
  function Levels(s: seq<byte>, pos: nat): seq<Level>
    requires pos <= |s|
    decreases |s| - pos
  {
    if pos == |s| then []
    else [s[pos..LevelEnd(s, pos)]] + Levels(s, Behind(s, LevelEnd(s, pos)))
  }

  /** topic_extract_segment: the level at pos and the position behind its delimiter. */
  method ExtractSegment(s: seq<byte>, pos: nat) returns (seg: Level, next: nat)
    requires pos <= |s|
    ensures seg == s[pos..LevelEnd(s, pos)] && next == Behind(s, LevelEnd(s, pos))
    ensures pos < |s| ==> Levels(s, pos) == [seg] + Levels(s, next)
  {
    var e := pos;
    while e < |s| && s[e] != SLASH
      invariant pos <= e <= |s| && LevelEnd(s, e) == LevelEnd(s, pos)
    {
      e := e + 1;
    }
    seg := s[pos..e];
    next := if e < |s| then e + 1 else e;
  }

  /** A filter, level by level: '+' takes one level, '#' in last place takes any number of levels, none included. */
  predicate Matches(filter: seq<Level>, topic: seq<Level>) {
    if filter == [] then topic == []
    else if filter[0] == [HASH] then |filter| == 1
    else topic != [] && (filter[0] == [PLUS] || filter[0] == topic[0]) && Matches(filter[1..], topic[1..])
  }

  /** The same with '#' taking one or more levels. */
  predicate MatchesSome(filter: seq<Level>, topic: seq<Level>) {
    if filter == [] then topic == []
    else if filter[0] == [HASH] then |filter| == 1 && topic != []
    else topic != [] && (filter[0] == [PLUS] || filter[0] == topic[0]) && MatchesSome(filter[1..], topic[1..])
  }

  /** The two readings differ in nothing but the parent level of a trailing '#'. */
  lemma {:induction false} ParentLevelOnly(filter: seq<Level>, topic: seq<Level>)
    ensures Matches(filter, topic) <==>
              || MatchesSome(filter, topic)
              || (filter != [] && filter[|filter| - 1] == [HASH] && [HASH] !in filter[..|filter| - 1]
                  && MatchesSome(filter[..|filter| - 1], topic))
  {
    if filter != [] && filter[0] != [HASH] && topic != [] {
      ParentLevelOnly(filter[1..], topic[1..]);
      if |filter| > 1 {
        assert filter[..|filter| - 1][1..] == filter[1..][..|filter| - 2];
        assert filter[..|filter| - 1] == [filter[0]] + filter[1..][..|filter| - 2];
      }
    }
  }

  predicate WildcardFree(l: Level) { PLUS !in l && HASH !in l }

  /** Wildcards stand alone in their level, and '#' only in the last one. */
  ghost predicate ValidFilter(filter: seq<Level>) {
    && (forall k :: 0 <= k < |filter| ==> WildcardFree(filter[k]) || filter[k] == [PLUS] || filter[k] == [HASH])
    && (forall k :: 0 <= k < |filter| - 1 ==> filter[k] != [HASH])
  }

  // ---- the character-level matcher ----

  /** topic_matches on what is left of filter and topic. */
  predicate CharMatch(f: seq<byte>, t: seq<byte>)
    decreases |f|
  {
    if f == [] || t == [] then
      (f != [] && f[0] == HASH) || (f == [] && t == [])
    else if f[0] == HASH then true
    else if f[0] == PLUS then
      var rest := t[LevelEnd(t, 0)..];
      if |f| > 1 && f[1] == SLASH then
        if rest != [] then CharMatch(f[2..], rest[1..]) else false
      else CharMatch(f[1..], rest)
    else if f[0] != t[0] then false
    else CharMatch(f[1..], t[1..])
  }

  /** topic_matches */
  method TopicMatches(filter: seq<byte>, topic: seq<byte>) returns (b: bool)
    ensures b == CharMatch(filter, topic)
  {
    var fi, ti := 0, 0;
    while fi < |filter| && ti < |topic|
      invariant 0 <= fi <= |filter| && 0 <= ti <= |topic|
      invariant CharMatch(filter[fi..], topic[ti..]) == CharMatch(filter, topic)
      decreases |filter| - fi
    {
      ghost var f, t := filter[fi..], topic[ti..];
      if filter[fi] == HASH {
        return true;
      }
      if filter[fi] == PLUS {
        var from := ti;
        while ti < |topic| && topic[ti] != SLASH
          invariant from <= ti <= |topic|
          invariant LevelEnd(topic[from..], 0) == LevelEnd(topic[from..], ti - from)
        {
          ti := ti + 1;
        }
        assert topic[from..][ti - from..] == topic[ti..];
        fi := fi + 1;
        assert f[1..] == filter[fi..];
        if fi < |filter| && filter[fi] == SLASH {
          if ti < |topic| && topic[ti] == SLASH {
            fi := fi + 1;
            ti := ti + 1;
            assert f[2..] == filter[fi..] && topic[ti - 1..][1..] == topic[ti..];
          } else {
            return false;
          }
        }
        continue;
      }
      if filter[fi] != topic[ti] {
        return false;
      }
      fi := fi + 1;
      ti := ti + 1;
      assert f[1..] == filter[fi..] && t[1..] == topic[ti..];
    }
    if fi < |filter| && filter[fi] == HASH {
      return true;
    }
    return fi == |filter| && ti == |topic|;
  }

  /** Splitting at every delimiter: a trailing one leaves an empty last level. */
  function Split(s: seq<byte>): (ls: seq<Level>)
    ensures |ls| > 0
    decreases |s|
  {
    var e := LevelEnd(s, 0);
    if e == |s| then [s] else [s[..e]] + Split(s[e + 1..])
  }

  lemma SplitStep(c: byte, s: seq<byte>)
    ensures c == SLASH ==> Split([c] + s) == [[]] + Split(s)
    ensures c != SLASH ==> Split([c] + s) == [[c] + Split(s)[0]] + Split(s)[1..]
  {
    var cs := [c] + s;
    if c == SLASH {
      assert cs[1..] == s;
    } else {
      EndShift(c, s, 0);
      var e := LevelEnd(s, 0);
      assert LevelEnd(cs, 1) == e + 1;
      if e == |s| {
        assert Split(s)[1..] == [];
      } else {
        assert cs[..e + 1] == [c] + s[..e];
        assert cs[e + 2..] == s[e + 1..];
      }
    }
  }

  lemma {:induction false} EndShift(c: byte, s: seq<byte>, pos: nat)
    requires pos <= |s|
    ensures LevelEnd([c] + s, pos + 1) == LevelEnd(s, pos) + 1
    decreases |s| - pos
  {
    if pos < |s| && s[pos] != SLASH {
      EndShift(c, s, pos + 1);
    }
  }

  ghost predicate EndsInSlash(t: seq<byte>) { t != [] && t[|t| - 1] == SLASH }

  /** The first level of a filter whose first character is given. */
  lemma FirstLevel(f: seq<byte>)
    requires f != [] && ValidFilter(Split(f))
    ensures f[0] == HASH ==> Split(f) == [[HASH]]
    ensures f[0] == PLUS ==> if |f| > 1 then f[1] == SLASH && Split(f) == [[PLUS]] + Split(f[2..]) else Split(f) == [[PLUS]]
    ensures f[0] != HASH && f[0] != PLUS && f[0] != SLASH ==> WildcardFree(Split(f)[0])
  {
    hide Split, WildcardFree;
    var rest := f[1..];
    assert f == [f[0]] + rest;
    SplitStep(f[0], rest);
    if f[0] != SLASH {
      LoneWildcard(f[0], Split(rest)[0], Split(f)[0]);
    }
    if f[0] == PLUS {
      PlusLevel(rest, Split(f));
    }
  }

  lemma PlusLevel(rest: seq<byte>, fs: seq<Level>)
    requires Split(rest)[0] == [] && fs == [[PLUS]] + Split(rest)[1..]
    ensures if rest != [] then rest[0] == SLASH && fs == [[PLUS]] + Split(rest[1..]) else fs == [[PLUS]]
  {
    hide Split;
    if rest == [] {
      SplitNothing();
    } else {
      assert rest == [rest[0]] + rest[1..];
      SplitStep(rest[0], rest[1..]);
    }
  }

  lemma LoneWildcard(c: byte, tail: Level, l: Level)
    requires l == [c] + tail && (WildcardFree(l) || l == [PLUS] || l == [HASH])
    ensures c == PLUS || c == HASH ==> tail == [] && l == [c]
    ensures c != PLUS && c != HASH ==> WildcardFree(l)
  {
    assert l[0] == c && c in l;
  }

  lemma SplitNothing()
    ensures Split([]) == [[]]
  {
  }

  lemma TailValid(fs: seq<Level>, rest: seq<Level>)
    requires ValidFilter(fs) && fs != [] && rest == fs[1..]
    ensures ValidFilter(rest)
  {
    assert forall k :: 0 <= k < |rest| ==> rest[k] == fs[k + 1];
  }

  lemma ShorterHead(c: byte, fs: seq<Level>, gs: seq<Level>)
    requires fs != [] && gs != [] && fs == [[c] + gs[0]] + gs[1..] && ValidFilter(fs) && WildcardFree(fs[0])
    ensures ValidFilter(gs) && WildcardFree(gs[0])
  {
    assert forall k :: 1 <= k < |gs| ==> gs[k] == fs[k];
    assert forall x :: x in gs[0] ==> x in fs[0];
  }

  /** Nothing follows the last delimiter: the plain split ends in an empty level. */
  ghost predicate Trails(s: seq<byte>) { s == [] || EndsInSlash(s) }

  ghost predicate EndsInPlus(fs: seq<Level>) { fs != [] && fs[|fs| - 1] == [PLUS] }

  /** For every valid filter and every topic the character-level matcher is level-by-level matching with '#' taking one or
      more levels, except that a '+' at the end of the filter does not take an empty last level of the topic. */
  lemma {:induction false} CharMatchIsLevelMatch(f: seq<byte>, t: seq<byte>)
    requires ValidFilter(Split(f))
    ensures CharMatch(f, t) <==> MatchesSome(Split(f), Split(t)) && !(Trails(t) && EndsInPlus(Split(f)))
    decreases |f|
  {
    hide ValidFilter;
    if f == [] {
      SplitEmpty(t);
    } else {
      FirstLevel(f);
      if t == [] {
        EmptyTopic(f);
      } else if f[0] == HASH {
      } else if f[0] == PLUS {
        PlusStep(f, t);
      } else {
        assert f == [f[0]] + f[1..] && t == [t[0]] + t[1..];
        SplitStep(f[0], f[1..]);
        SplitStep(t[0], t[1..]);
        if f[0] == t[0] {
          CharStep(f, t);
        } else {
          DifferentHeads(f, t);
        }
      }
    }
  }

  /** So the two differ on a filter and a topic exactly when the topic's last level is empty, the filter ends in '+' and
      the levels match. */
  lemma MatchersDifferIff(f: seq<byte>, t: seq<byte>)
    requires ValidFilter(Split(f))
    ensures CharMatch(f, t) != MatchesSome(Split(f), Split(t)) <==>
              Trails(t) && EndsInPlus(Split(f)) && MatchesSome(Split(f), Split(t))
  {
    CharMatchIsLevelMatch(f, t);
  }

  /** Such a pair: "a/+" does not match "a/" character by character. */
  lemma TrailingDelimiterDiffers()
    ensures var f, t := [0x61, SLASH, PLUS], [0x61, SLASH];
            !CharMatch(f, t) && MatchesSome(Split(f), Split(t)) && ValidFilter(Split(f))
  {
    var f: seq<byte>, t: seq<byte> := [0x61, SLASH, PLUS], [0x61, SLASH];
    assert f[1..] == [SLASH, PLUS] && f[1..][1..] == [PLUS] && t[1..] == [SLASH] && t[1..][1..] == [];
    assert CharMatch(f, t) == CharMatch(f[1..], t[1..]) == CharMatch([PLUS], []) == false;
    var a: byte := 0x61;
    assert f == [a] + ([SLASH] + [PLUS]) && t == [a] + ([SLASH] + []);
    assert Split([PLUS]) == [[PLUS]];
    SplitStep(SLASH, [PLUS]);
    SplitStep(a, [SLASH] + [PLUS]);
    SplitStep(SLASH, []);
    SplitStep(a, [SLASH] + []);
    var fs: seq<Level>, ts: seq<Level> := Split(f), Split(t);
    var fs1: seq<Level>, ts1: seq<Level> := [[PLUS]], [[]];
    assert fs == [[a]] + fs1 && ts == [[a]] + ts1;
    assert fs[1..] == fs1 && ts[1..] == ts1;
    assert MatchesSome(fs1, ts1);
  }

  lemma SplitEmpty(t: seq<byte>)
    ensures Split([]) == [[]]
    ensures MatchesSome([[]], Split(t)) <==> t == []
  {
    var e := LevelEnd(t, 0);
    assert MatchesSome([[]], Split(t)) <==> Split(t)[0] == [] && MatchesSome([], Split(t)[1..]);
    if e < |t| {
      assert Split(t)[1..] == Split(t[e + 1..]);
    }
  }

  /** A single empty level is matched by one level only. */
  lemma OneEmptyLevel(fs: seq<Level>)
    requires fs != []
    ensures MatchesSome(fs, [[]]) <==> |fs| == 1 && (fs[0] == [HASH] || fs[0] == [PLUS] || fs[0] == [])
  {
    if fs[0] != [HASH] && |fs| > 1 {
      assert fs[1..] != [] && !MatchesSome(fs[1..], []);
    }
  }

  lemma EmptyTopic(f: seq<byte>)
    requires f != [] && ValidFilter(Split(f))
    requires f[0] == HASH ==> Split(f) == [[HASH]]
    ensures MatchesSome(Split(f), Split([])) && !EndsInPlus(Split(f)) <==> f[0] == HASH
  {
    assert f == [f[0]] + f[1..];
    SplitStep(f[0], f[1..]);
    SplitNothing();
    OneEmptyLevel(Split(f));
    assert [HASH][0] == HASH && [PLUS][0] == PLUS;
  }

  lemma DifferentHeads(f: seq<byte>, t: seq<byte>)
    requires f != [] && t != [] && f[0] != t[0] && f[0] != PLUS && f[0] != HASH
    ensures !MatchesSome(Split(f), Split(t))
  {
    hide Split;
    assert f == [f[0]] + f[1..] && t == [t[0]] + t[1..];
    SplitStep(f[0], f[1..]);
    SplitStep(t[0], t[1..]);
    var l, m := Split(f)[0], Split(t)[0];
    assert l != [] ==> l[0] == f[0];
    assert m != [] ==> m[0] == t[0];
    assert l == [] <==> f[0] == SLASH;
    assert m == [] <==> t[0] == SLASH;
    assert [PLUS][0] == PLUS && [HASH][0] == HASH;
  }

  lemma {:induction false} CharStep(f: seq<byte>, t: seq<byte>)
    requires f != [] && t != [] && f[0] == t[0] && f[0] != PLUS && f[0] != HASH
    requires ValidFilter(Split(f))
    ensures CharMatch(f, t) <==> MatchesSome(Split(f), Split(t)) && !(Trails(t) && EndsInPlus(Split(f)))
    decreases |f|, 0
  {
    hide Split, CharMatch, ValidFilter, WildcardFree;
    var fs, ts := Split(f), Split(t);
    assert f == [f[0]] + f[1..] && t == [t[0]] + t[1..];
    SplitStep(f[0], f[1..]);
    SplitStep(t[0], t[1..]);
    FirstLevel(f);
    var gs, us := Split(f[1..]), Split(t[1..]);
    CharMatchUnfold(f, t);
    if f[0] == SLASH {
      TailValid(fs, gs);
      assert fs[1..] == gs && ts[1..] == us;
      CharMatchIsLevelMatch(f[1..], t[1..]);
    } else {
      ShorterHead(f[0], fs, gs);
      NoWildcardHead(gs[0]);
      CharMatchIsLevelMatch(f[1..], t[1..]);
      HeadsAgree(f[0], fs, ts, gs, us);
      if t[1..] == [] {
        SplitNothing();
        OneEmptyLevel(gs);
      }
      SameLast(f[0], fs, gs);
    }
  }

  /** A character in front of the first level leaves a '+' at the end where it is. */
  lemma SameLast(c: byte, fs: seq<Level>, gs: seq<Level>)
    requires gs != [] && fs == [[c] + gs[0]] + gs[1..] && gs[0] != [PLUS] && c != PLUS
    ensures EndsInPlus(fs) <==> EndsInPlus(gs)
    ensures |gs| == 1 ==> !EndsInPlus(gs)
  {
    assert fs[0][0] == c && [PLUS][0] == PLUS;
    assert |gs| > 1 ==> fs[|fs| - 1] == gs[|gs| - 1];
  }

  lemma CharMatchUnfold(f: seq<byte>, t: seq<byte>)
    requires f != [] && t != [] && f[0] == t[0] && f[0] != PLUS && f[0] != HASH
    ensures CharMatch(f, t) == CharMatch(f[1..], t[1..])
  {
  }

  lemma NoWildcardHead(l: Level)
    requires WildcardFree(l)
    ensures l != [PLUS] && l != [HASH]
  {
    assert l == [PLUS] ==> PLUS in l;
    assert l == [HASH] ==> HASH in l;
  }

  /** A common character in front of both first levels changes nothing. */
  lemma HeadsAgree(c: byte, fs: seq<Level>, ts: seq<Level>, gs: seq<Level>, us: seq<Level>)
    requires gs != [] && us != [] && gs[0] != [PLUS] && gs[0] != [HASH] && c != PLUS && c != HASH
    requires fs == [[c] + gs[0]] + gs[1..] && ts == [[c] + us[0]] + us[1..]
    ensures MatchesSome(fs, ts) <==> MatchesSome(gs, us)
  {
    assert fs[1..] == gs[1..] && ts[1..] == us[1..];
    assert fs[0][0] == c && fs[0][1..] == gs[0] && ts[0][1..] == us[0];
  }

  lemma {:induction false} PlusStep(f: seq<byte>, t: seq<byte>)
    requires f != [] && t != [] && f[0] == PLUS && ValidFilter(Split(f))
    ensures CharMatch(f, t) <==> MatchesSome(Split(f), Split(t)) && !(Trails(t) && EndsInPlus(Split(f)))
    decreases |f|, 0
  {
    hide CharMatch, MatchesSome, Split, ValidFilter, LevelEnd, Trails, EndsInPlus;
    FirstLevel(f);
    var e := LevelEnd(t, 0);
    PlusChars(f, t);
    FirstCut(t);
    if |f| > 1 {
      var gs := Split(f[2..]);
      assert Split(f)[1..] == gs;
      PlusTakes(gs, Split(t));
      if e < |t| {
        TailValid(Split(f), gs);
        CharMatchIsLevelMatch(f[2..], t[e + 1..]);
        assert Split(t)[1..] == Split(t[e + 1..]);
      } else {
        assert Split(t)[1..] == [];
        NothingMatches(gs);
      }
    } else {
      PlusTakes([], Split(t));
      assert Split(f) == [[PLUS]] + [];
      LastPlus();
    }
  }

  lemma PlusChars(f: seq<byte>, t: seq<byte>)
    requires f != [] && t != [] && f[0] == PLUS && (|f| > 1 ==> f[1] == SLASH)
    ensures var e := LevelEnd(t, 0);
            CharMatch(f, t) <==> if |f| > 1 then e < |t| && CharMatch(f[2..], t[e + 1..]) else e == |t|
  {
    var rest := t[LevelEnd(t, 0)..];
    if rest != [] {
      assert rest[1..] == t[LevelEnd(t, 0) + 1..];
    }
  }

  /** The first level of a topic and what follows its delimiter. */
  lemma FirstCut(t: seq<byte>)
    requires t != []
    ensures var e := LevelEnd(t, 0);
            if e < |t| then Split(t) == [t[..e]] + Split(t[e + 1..]) && (Trails(t) <==> Trails(t[e + 1..]))
            else Split(t) == [t] && !Trails(t)
  {
  }

  lemma PlusTakes(gs: seq<Level>, ts: seq<Level>)
    requires ts != []
    ensures MatchesSome([[PLUS]] + gs, ts) <==> MatchesSome(gs, ts[1..])
    ensures gs != [] ==> (EndsInPlus([[PLUS]] + gs) <==> EndsInPlus(gs))
    ensures MatchesSome([], ts[1..]) <==> |ts| == 1
  {
    assert ([[PLUS]] + gs)[1..] == gs;
  }

  lemma NothingMatches(gs: seq<Level>)
    requires gs != []
    ensures !MatchesSome(gs, [])
  {
  }

  lemma LastPlus()
    ensures EndsInPlus([[PLUS]])
  {
  }

  /** The iterator yields the plain split without its last level when that level is empty. */
  lemma {:induction false} LevelsAreSplit(s: seq<byte>, pos: nat)
    requires pos <= |s|
    ensures Split(s[pos..]) == Levels(s, pos) + (if Trails(s[pos..]) then [[]] else [])
    ensures Levels(s, pos) == Split(s[pos..]) <==> !Trails(s[pos..])
    decreases |s| - pos
  {
    hide LevelEnd, Split, Levels;
    var u := s[pos..];
    if u == [] {
      SplitNothing();
      NoMoreLevels(s);
    } else {
      EndInSuffix(s, pos, 0);
      var e := LevelEnd(s, pos);
      SplitOnce(u);
      LevelsOnce(s, pos);
      SuffixParts(s, pos, e);
      if e < |s| {
        LevelsAreSplit(s, e + 1);
        assert Trails(u) <==> Trails(s[e + 1..]);
        assert [s[pos..e]] + (Levels(s, e + 1) + [[]]) == ([s[pos..e]] + Levels(s, e + 1)) + [[]];
      }
    }
    LongerByOne(Levels(s, pos));
  }

  lemma LongerByOne(ls: seq<Level>)
    ensures ls + [[]] != ls && ls + [] == ls
  {
    assert |ls + [[]]| == |ls| + 1;
  }

  lemma NoMoreLevels(s: seq<byte>)
    ensures Levels(s, |s|) == []
  {
  }

  lemma LevelsOnce(s: seq<byte>, pos: nat)
    requires pos < |s|
    ensures var e := LevelEnd(s, pos);
            Levels(s, pos) == if e == |s| then [s[pos..e]] else [s[pos..e]] + Levels(s, e + 1)
  {
  }

  lemma SuffixParts(s: seq<byte>, pos: nat, e: nat)
    requires pos <= e <= |s|
    ensures s[pos..][..e - pos] == s[pos..e]
    ensures e < |s| ==> s[pos..][e - pos + 1..] == s[e + 1..]
    ensures e == |s| ==> s[pos..] == s[pos..e]
  {
  }

  lemma SplitOnce(u: seq<byte>)
    ensures var e := LevelEnd(u, 0); Split(u) == if e == |u| then [u] else [u[..e]] + Split(u[e + 1..])
  {
    hide LevelEnd;
  }

  lemma {:induction false} EndInSuffix(s: seq<byte>, pos: nat, k: nat)
    requires pos + k <= |s|
    ensures LevelEnd(s, pos + k) == pos + LevelEnd(s[pos..], k)
    decreases |s| - pos - k
  {
    if pos + k < |s| && s[pos + k] != SLASH {
      EndInSuffix(s, pos, k + 1);
    }
  }
}
