/** Sums of multisets over a sequence, and how a point update, a push or a pop changes them. */
module Bags {

  function Sum(bags: seq<multiset<int>>): multiset<int> {
    if bags == [] then multiset{} else bags[0] + Sum(bags[1..])
  }

  lemma {:induction false} SumUpdate(bags: seq<multiset<int>>, i: nat, bag: multiset<int>)
    requires i < |bags|
    ensures Sum(bags[i := bag]) + bags[i] == Sum(bags) + bag
    ensures bags[i] <= Sum(bags)
  {
    if i == 0 {
      assert bags[i := bag][1..] == bags[1..];
    } else {
      assert bags[i := bag][1..] == bags[1..][i - 1 := bag];
      SumUpdate(bags[1..], i - 1, bag);
      var old', new' := Sum(bags[1..]), Sum(bags[1..][i - 1 := bag]);
      assert bags[0] + new' + bags[i] == bags[0] + (new' + bags[i]) == bags[0] + (old' + bag) == bags[0] + old' + bag;
    }
  }

  lemma {:induction false} SumPush(bags: seq<multiset<int>>, bag: multiset<int>)
    ensures Sum(bags + [bag]) == Sum(bags) + bag
  {
    if bags == [] {
      assert bags + [bag] == [bag];
    } else {
      assert (bags + [bag])[1..] == bags[1..] + [bag];
      SumPush(bags[1..], bag);
    }
  }

  lemma {:induction false} SumSize(bags: seq<multiset<int>>, limit: nat)
    requires forall i :: 0 <= i < |bags| ==> |bags[i]| <= limit
    ensures |Sum(bags)| <= |bags| * limit
  {
    if bags != [] {
      SumSize(bags[1..], limit);
      assert |bags| * limit == |bags[1..]| * limit + limit;
    }
  }

  lemma {:induction false} SumEmpty(bags: seq<multiset<int>>)
    requires forall i :: 0 <= i < |bags| ==> bags[i] == multiset{}
    ensures Sum(bags) == multiset{}
  {
    if bags != [] {
      SumEmpty(bags[1..]);
    }
  }

  lemma {:induction false} SumHas(bags: seq<multiset<int>>, x: int)
    requires x in Sum(bags)
    ensures exists i :: 0 <= i < |bags| && x in bags[i]
  {
    if x !in bags[0] {
      SumHas(bags[1..], x);
      var i :| 0 <= i < |bags[1..]| && x in bags[1..][i];
      assert x in bags[i + 1];
    }
  }

  /** Moving one element between two parts keeps the whole. */
  lemma Move(a: multiset<int>, b: multiset<int>, b': multiset<int>, c: multiset<int>, x: int)
    requires b' + multiset{x} == b
    ensures (a + multiset{x}) + b' + c == a + b + c
  {
    assert (a + multiset{x}) + b' == a + (b' + multiset{x});
  }

  /** One element handed from the first part to the second. */
  lemma Handover(a: multiset<int>, a': multiset<int>, b: multiset<int>, b': multiset<int>, x: multiset<int>)
    requires a' + x == a && b' == b + x
    ensures a' + b' == a + b
  {
    assert a' + (b + x) == (a' + x) + b;
  }

  lemma Cancel(a: multiset<int>, b: multiset<int>, x: multiset<int>)
    requires a + x == b + x
    ensures a == b
  {
    assert a == (a + x) - x;
    assert b == (b + x) - x;
  }

  lemma Exchange(t: multiset<int>, t': multiset<int>, x: multiset<int>, x': multiset<int>)
    requires x <= t && t' + x == t + x'
    ensures t == (t - x) + x
    ensures t' == (t - x) + x'
  {
    Cancel(t', (t - x) + x', x);
  }

  lemma CountAtMost(a: multiset<int>, x: int)
    ensures a[x] <= |a|
  {
    assert a == a[x := 0] + multiset{}[x := a[x]];
  }
}
