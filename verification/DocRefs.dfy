/** Document references, their order, and the ID-to-hash map a list of them stands for. */
module DocRefs {
  import opened ByteStrings

  type Hash = Bytes

  datatype DocRef = DocRef(id: Bytes, hash: Hash)

  /** Ascending by ID; equal IDs may stand in any order, since sort.Slice is not stable. */
  predicate Sorted(refs: seq<DocRef>)
  {
    forall i, j :: 0 <= i < j < |refs| ==> Leq(refs[i].id, refs[j].id)
  }

  predicate DistinctIds(refs: seq<DocRef>)
  {
    forall i, j :: 0 <= i < j < |refs| ==> refs[i].id != refs[j].id
  }

  predicate StrictlySorted(refs: seq<DocRef>)
  {
    forall i, j :: 0 <= i < j < |refs| ==> Less(refs[i].id, refs[j].id)
  }

  function IdSet(refs: seq<DocRef>): set<Bytes>
  {
    set i | 0 <= i < |refs| :: refs[i].id
  }

  /** The collection state a doc-ref list stands for. */
  function ToMap(refs: seq<DocRef>): (m: map<Bytes, Hash>)
    ensures m.Keys == IdSet(refs)
    ensures DistinctIds(refs) ==> forall i :: 0 <= i < |refs| ==> m[refs[i].id] == refs[i].hash
  {
    if refs == [] then map[]
    else
      assert IdSet(refs) == {refs[0].id} + IdSet(refs[1..]) by {
        assert forall i :: 1 <= i < |refs| ==> refs[1..][i - 1] == refs[i];
        assert forall x :: x in IdSet(refs) ==> x == refs[0].id || x in IdSet(refs[1..]);
      }
      assert DistinctIds(refs) ==> DistinctIds(refs[1..]);
      assert forall i :: 1 <= i < |refs| ==> refs[1..][i - 1] == refs[i];
      ToMap(refs[1..])[refs[0].id := refs[0].hash]
  }

  lemma StrictIsSortedDistinct(refs: seq<DocRef>)
    ensures StrictlySorted(refs) <==> Sorted(refs) && DistinctIds(refs)
  {
    OrderLaws();
  }

  /** Reordering a list changes neither the distinctness of its IDs nor the map it stands for. */
  lemma SameMap(a: seq<DocRef>, b: seq<DocRef>)
    requires multiset(a) == multiset(b)
    requires DistinctIds(a)
    ensures DistinctIds(b) && ToMap(a) == ToMap(b)
  {
    SameDistinct(a, b);
    forall x
      ensures x in ToMap(a) ==> x in ToMap(b) && ToMap(a)[x] == ToMap(b)[x]
      ensures x in ToMap(b) ==> x in ToMap(a)
    {
      if x in ToMap(a) { SameLookup(a, b, x); }
      if x in ToMap(b) { SameLookup(b, a, x); }
    }
  }

  lemma SameDistinct(a: seq<DocRef>, b: seq<DocRef>)
    requires multiset(a) == multiset(b)
    requires DistinctIds(a)
    ensures DistinctIds(b)
  {
    forall i, j | 0 <= i < j < |b|
      ensures b[i].id != b[j].id
    {
      if b[i].id == b[j].id {
        assert b[i] in multiset(b) && b[j] in multiset(b);
        CountsAtMostOnce(a, b[i].id, b[i], b[j]);
        TwoPlaces(b, i, j);
      }
    }
  }

  lemma SameLookup(a: seq<DocRef>, b: seq<DocRef>, x: Bytes)
    requires multiset(a) == multiset(b)
    requires DistinctIds(a) && DistinctIds(b)
    requires x in ToMap(a)
    ensures x in ToMap(b) && ToMap(a)[x] == ToMap(b)[x]
  {
    assert x in IdSet(a);
    var i :| 0 <= i < |a| && a[i].id == x;
    assert a[i] in multiset(a) && a[i] in multiset(b);
    var j :| 0 <= j < |b| && b[j] == a[i];
    assert b[j].id in IdSet(b);
  }

  /** With distinct IDs, two members with one ID are one member, present once. */
  lemma CountsAtMostOnce(a: seq<DocRef>, id: Bytes, x: DocRef, y: DocRef)
    requires DistinctIds(a)
    requires x in multiset(a) && y in multiset(a) && x.id == id && y.id == id
    ensures x == y && multiset(a)[x] == 1
  {
    var i :| 0 <= i < |a| && a[i] == x;
    assert a == a[..i] + [x] + a[i + 1..];
    assert multiset(a) == multiset(a[..i]) + multiset{x} + multiset(a[i + 1..]);
    assert x !in a[..i] && x !in a[i + 1..];
  }

  lemma TwoPlaces(b: seq<DocRef>, i: nat, j: nat)
    requires i < j < |b| && b[i] == b[j]
    ensures multiset(b)[b[i]] >= 2
  {
    assert b == b[..j] + [b[j]] + b[j + 1..];
    assert multiset(b) == multiset(b[..j]) + multiset{b[j]} + multiset(b[j + 1..]);
    assert b[..j][i] == b[j];
    assert b[j] in multiset(b[..j]);
  }

  lemma InsertSorted(a: seq<DocRef>, r: DocRef, i: nat)
    requires Sorted(a) && i <= |a|
    requires forall j :: 0 <= j < i ==> Leq(a[j].id, r.id)
    requires forall j :: i <= j < |a| ==> Leq(r.id, a[j].id)
    ensures Sorted(a[..i] + [r] + a[i..])
    ensures multiset(a[..i] + [r] + a[i..]) == multiset(a) + multiset{r}
  {
    var s := a[..i] + [r] + a[i..];
    assert a == a[..i] + a[i..];
    forall j, k | 0 <= j < k < |s|
      ensures Leq(s[j].id, s[k].id)
    {
      assert s[j] == if j < i then a[j] else if j == i then r else a[j - 1];
      assert s[k] == if k < i then a[k] else if k == i then r else a[k - 1];
    }
  }

  /** sort.Slice by ID: some sorted arrangement of the same refs, ties in no promised order. */
  method SortById(refs: seq<DocRef>) returns (sorted: seq<DocRef>)
    ensures Sorted(sorted) && multiset(sorted) == multiset(refs)
  {
    sorted := [];
    for n := 0 to |refs|
      invariant Sorted(sorted) && multiset(sorted) == multiset(refs[..n])
    {
      var i := |sorted|;
      while i > 0 && Less(refs[n].id, sorted[i - 1].id)
        invariant 0 <= i <= |sorted|
        invariant forall j :: i <= j < |sorted| ==> Leq(refs[n].id, sorted[j].id)
      {
        i := i - 1;
        LessAsymmetric(refs[n].id, sorted[i].id);
      }
      if i > 0 {
        forall j | 0 <= j < i ensures Leq(sorted[j].id, refs[n].id) {
          LeqTransitive(sorted[j].id, sorted[i - 1].id, refs[n].id);
        }
      }
      InsertSorted(sorted, refs[n], i);
      assert refs[..n + 1] == refs[..n] + [refs[n]];
      sorted := sorted[..i] + [refs[n]] + sorted[i..];
    }
    assert refs[..|refs|] == refs;
  }
}
