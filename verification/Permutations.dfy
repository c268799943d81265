/** Small facts about rearranged sequences. */
module Permutations {
  ghost predicate Distinct<T>(a: seq<T>)
  {
    forall i, j :: 0 <= i < j < |a| ==> a[i] != a[j]
  }

  lemma AtMostOnce<T>(a: seq<T>, x: T)
    requires Distinct(a)
    ensures multiset(a)[x] <= 1
  {
    if x in a {
      var k :| 0 <= k < |a| && a[k] == x;
      assert a == a[..k] + [a[k]] + a[k + 1..];
      assert x !in a[..k] && x !in a[k + 1..];
    }
  }

  lemma {:induction false} DistinctSub<T>(a: seq<T>, b: seq<T>)
    requires Distinct(a)
    requires multiset(b) <= multiset(a)
    ensures Distinct(b)
  {
    forall i, j | 0 <= i < j < |b|
      ensures b[i] != b[j]
    {
      assert b == b[..j] + [b[j]] + b[j + 1..];
      assert multiset(b) == multiset(b[..j]) + multiset{b[j]} + multiset(b[j + 1..]);
      assert b[j] in multiset(b);
      AtMostOnce(a, b[j]);
      assert b[..j][i] == b[i];
      assert b[i] in multiset(b[..j]);
    }
  }

  lemma SameMembers<T>(a: seq<T>, b: seq<T>)
    requires multiset(a) == multiset(b)
    ensures forall x :: x in b ==> x in a
  {
    forall x | x in b ensures x in a {
      assert x in multiset(b);
    }
  }

  lemma RestPermuted<T>(a: seq<T>, b: seq<T>, k: nat)
    requires a != [] && k < |b| && b[k] == a[0] && multiset(a) == multiset(b)
    ensures multiset(a[1..]) == multiset(b[..k] + b[k + 1..])
  {
    assert a == [a[0]] + a[1..];
    assert b == b[..k] + [b[k]] + b[k + 1..];
    assert multiset(a[1..]) == multiset(a) - multiset{a[0]};
    assert multiset(b[..k] + b[k + 1..]) == multiset(b) - multiset{b[k]};
  }

  lemma DropLast<T>(before: seq<T>, after: seq<T>, n: nat)
    requires |after| == n + 1 && multiset(after) == multiset(before)
    requires |before| == n + 1 && after[n..] == [before[0]]
    ensures after[n] == before[0] && multiset(after[..n]) == multiset(before[1..])
  {
    assert after[n] == after[n..][0];
    assert after == after[..n] + [before[0]];
    assert before == [before[0]] + before[1..];
    assert multiset(after[..n]) == multiset(after) - multiset{before[0]};
    assert multiset(before[1..]) == multiset(before) - multiset{before[0]};
  }

  function Members<T>(a: seq<T>): set<T>
  {
    set x | x in a
  }

  lemma {:induction false} MembersSize<T>(a: seq<T>)
    requires Distinct(a)
    ensures |Members(a)| == |a|
  {
    if a != [] {
      var n := |a| - 1;
      MembersSize(a[..n]);
      assert a == a[..n] + [a[n]];
      assert a[n] !in a[..n];
      assert Members(a) == Members(a[..n]) + {a[n]};
    }
  }

  lemma SubsetSize<T>(a: set<T>, b: set<T>)
    requires a <= b
    ensures |a| <= |b|
  {
    assert b == a + (b - a);
  }

  lemma Regroup<T>(x: multiset<T>, y: multiset<T>, z: multiset<T>)
    ensures x + (y + z) == y + (x + z)
  {
  }
}
