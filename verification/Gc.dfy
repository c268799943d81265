/** One uninterrupted garbage-collection pass, step by step as the code runs it under the scope lock. */
module Gc {
  import opened ByteStrings
  import opened DocRefs
  import opened Permutations
  import opened Scope

  datatype GcResult = GcResult(manifestsDeleted: nat, objectsDeleted: nat, abandonedRecovered: nat)

  /** Manifests no index entry mentions: what an interrupted Create leaves behind. */
  function Abandoned(s: Store): set<Id>
  {
    s.manifests.Keys - IndexIds(s.index)
  }

  function OnlyManifests(manifests: map<Id, Manifest>, ids: set<Id>): map<Id, Manifest>
  {
    map id | id in manifests && id in ids :: manifests[id]
  }

  function WithoutManifests(manifests: map<Id, Manifest>, ids: set<Id>): map<Id, Manifest>
  {
    map id | id in manifests && id !in ids :: manifests[id]
  }

  function WithoutRefsOf(refs: RefTable, ids: set<Id>): RefTable
  {
    map k | k in refs && k.0 !in ids :: refs[k]
  }

  function RemoveManifest(manifests: map<Id, Manifest>, id: Id): map<Id, Manifest>
  {
    map x | x in manifests && x != id :: manifests[x]
  }

  lemma RemoveOne(manifests: map<Id, Manifest>, refs: RefTable, gone: set<Id>, id: Id)
    ensures RemoveManifest(WithoutManifests(manifests, gone), id) == WithoutManifests(manifests, gone + {id})
    ensures DropRefs(WithoutRefsOf(refs, gone), id) == WithoutRefsOf(refs, gone + {id})
  {
  }

  lemma RemoveNone(manifests: map<Id, Manifest>, refs: RefTable)
    ensures WithoutManifests(manifests, {}) == manifests
    ensures WithoutRefsOf(refs, {}) == refs
  {
  }

  lemma InsertByTime(index: seq<Summary>, n: nat, a: seq<Summary>, i: nat)
    requires n < |index| && i <= |a| && Arranges(index[..n], a)
    requires i > 0 ==> a[i - 1].createdAt <= index[n].createdAt
    requires forall j :: i <= j < |a| ==> index[n].createdAt <= a[j].createdAt
    ensures Arranges(index[..n + 1], a[..i] + [index[n]] + a[i..])
  {
    var s := index[n];
    var b := a[..i] + [s] + a[i..];
    assert index[..n + 1] == index[..n] + [s];
    InsertedBag(a, s, i);
    BetweenStaysSorted(a, s, i);
  }

  lemma InsertedBag(a: seq<Summary>, s: Summary, i: nat)
    requires i <= |a|
    ensures multiset(a[..i] + [s] + a[i..]) == multiset(a) + multiset{s}
  {
    assert a == a[..i] + a[i..];
  }

  lemma BetweenStaysSorted(a: seq<Summary>, s: Summary, i: nat)
    requires i <= |a| && forall j, k :: 0 <= j < k < |a| ==> a[j].createdAt <= a[k].createdAt
    requires i > 0 ==> a[i - 1].createdAt <= s.createdAt
    requires forall j :: i <= j < |a| ==> s.createdAt <= a[j].createdAt
    ensures var b := a[..i] + [s] + a[i..]; forall j, k :: 0 <= j < k < |b| ==> b[j].createdAt <= b[k].createdAt
  {
  }

  lemma ArrangesNothing(index: seq<Summary>)
    requires index == []
    ensures Arranges(index, [])
  {
  }

  /** scopeIndex.Sorted: oldest first. */
  method Sorted(index: seq<Summary>) returns (sorted: seq<Summary>)
    ensures Arranges(index, sorted)
  {
    hide *;
    sorted := [];
    ArrangesNothing(index[..0]);
    for n := 0 to |index|
      invariant Arranges(index[..n], sorted)
    {
      var i := |sorted|;
      while i > 0 && index[n].createdAt < sorted[i - 1].createdAt
        invariant 0 <= i <= |sorted|
        invariant forall j :: i <= j < |sorted| ==> index[n].createdAt <= sorted[j].createdAt
      {
        i := i - 1;
      }
      InsertByTime(index, n, sorted, i);
      sorted := sorted[..i] + [index[n]] + sorted[i..];
    }
    assert index[..|index|] == index;
  }

  /** The keep map of gcLocked: first the tagged, then the newest. */
  method ChooseKeep(index: seq<Summary>, keepLast: int) returns (keep: set<Id>)
    ensures IsKeepChoice(index, keepLast, keep)
    ensures Distinct(index) && Determined(index, keepLast) ==> keep == KeepIds(index, keepLast)
    ensures DistinctIndex(index) ==> KeepsNewest(index, keepLast, keep)
  {
    var sorted := Sorted(index);
    keep := {};
    for i := 0 to |sorted|
      invariant keep == set j | 0 <= j < i && sorted[j].tags != [] :: sorted[j].id
    {
      if |sorted[i].tags| > 0 {
        keep := keep + {sorted[i].id};
      }
    }
    if keepLast > 0 {
      var start := if |sorted| - keepLast < 0 then 0 else |sorted| - keepLast;
      for i := start to |sorted|
        invariant keep == set j | 0 <= j < |sorted| && (sorted[j].tags != [] || start <= j < i) :: sorted[j].id
      {
        keep := keep + {sorted[i].id};
      }
    }
    assert keep == KeepSet(sorted, keepLast);
    if DistinctIndex(index) {
      KeepsTheNewest(index, keepLast, keep);
    }
    if Distinct(index) && Determined(index, keepLast) {
      KeepSetIsKeepIds(index, sorted, keepLast);
    }
  }

  /** The indexed snapshots that are not to be kept. */
  function Pruned(index: seq<Summary>, keep: set<Id>): set<Id>
  {
    IndexIds(index) - keep
  }

  lemma NothingPruned(index: seq<Summary>, keep: set<Id>)
    ensures Kept(index[..0], keep) == [] && Pruned(index[..0], keep) == {}
  {
  }

  lemma NextPruned(index: seq<Summary>, keep: set<Id>, i: nat)
    requires i < |index|
    ensures Pruned(index[..i + 1], keep) == if index[i].id in keep then Pruned(index[..i], keep) else Pruned(index[..i], keep) + {index[i].id}
    ensures Kept(index[..i + 1], keep) == if index[i].id in keep then Kept(index[..i], keep) + [index[i]] else Kept(index[..i], keep)
  {
    assert index[..i + 1] == index[..i] + [index[i]];
    KeptSnoc(index[..i], index[i], keep);
  }

  lemma {:induction false} KeptSnoc(index: seq<Summary>, s: Summary, keep: set<Id>)
    ensures Kept(index + [s], keep) == if s.id in keep then Kept(index, keep) + [s] else Kept(index, keep)
  {
    if index == [] {
      assert (index + [s])[1..] == [];
    } else {
      var head := if index[0].id in keep then [index[0]] else [];
      assert (index + [s])[1..] == index[1..] + [s];
      assert Kept(index + [s], keep) == head + Kept(index[1..] + [s], keep);
      assert Kept(index, keep) == head + Kept(index[1..], keep);
      KeptSnoc(index[1..], s, keep);
    }
  }

  lemma AllAbandoned(s: Store, done: set<Id>)
    requires forall x :: x in s.manifests ==> x in done || x in IndexIds(s.index)
    requires forall x :: x in done ==> x in s.manifests && x !in IndexIds(s.index)
    ensures done == Abandoned(s)
  {
  }

  /** The files of one scope. */
  class ScopeFiles {
    var index: seq<Summary>
    var manifests: map<Id, Manifest>
    var refs: RefTable
    var objects: set<Hash>

    function Value(): Store
      reads this
    {
      Store(index, manifests, refs, objects)
    }

    constructor (s: Store)
      ensures Value() == s
    {
      index, manifests, refs, objects := s.index, s.manifests, s.refs, s.objects;
    }

    /** recoverAbandonedManifests. */
    method RecoverAbandoned() returns (recovered: nat)
      modifies `manifests, `refs
      ensures manifests == WithoutManifests(old(manifests), Abandoned(old(Value())))
      ensures refs == WithoutRefsOf(old(refs), Abandoned(old(Value())))
      ensures recovered == |Abandoned(old(Value()))|
      ensures forall id :: id in manifests <==> id in old(manifests) && exists s :: s in index && s.id == id
      ensures forall id :: id in manifests ==> manifests[id] == old(manifests)[id]
      ensures forall id, c :: (id, c) in refs <==>
        (id, c) in old(refs) && (id !in old(manifests) || exists s :: s in index && s.id == id)
      ensures forall k :: k in refs ==> refs[k] == old(refs)[k]
    {
      ghost var start := Store(index, manifests, refs, objects);
      assert start == Value();
      hide *;
      var indexed := IndexIds(index);
      var todo := manifests.Keys;
      ghost var done: set<Id> := {};
      recovered := 0;
      RemoveNone(manifests, refs);
      while todo != {}
        invariant forall x :: x in todo ==> x in start.manifests && x !in done
        invariant forall x :: x in start.manifests ==> x in todo || x in done || x in indexed
        invariant forall x :: x in done ==> x in start.manifests && x !in indexed
        invariant manifests == WithoutManifests(start.manifests, done)
        invariant refs == WithoutRefsOf(start.refs, done)
        invariant recovered == |done|
        decreases |todo|
      {
        var id :| id in todo;
        todo := todo - {id};
        if id !in indexed {
          RemoveOne(start.manifests, start.refs, done, id);
          manifests := RemoveManifest(manifests, id);
          refs := DropRefs(refs, id);
          recovered := recovered + 1;
          done := done + {id};
        }
      }
      AllAbandoned(start, done);
      RecoveredAre(start, manifests, refs);
    }

    /** The pruning loop of gcLocked, and the index write after it. */
    method Prune(keep: set<Id>) returns (deleted: nat)
      modifies `index, `manifests, `refs
      ensures index == Kept(old(index), keep)
      ensures manifests == WithoutManifests(old(manifests), Pruned(old(index), keep))
      ensures refs == WithoutRefsOf(old(refs), Pruned(old(index), keep))
      ensures deleted + |index| == |old(index)|
      ensures forall s :: s in index <==> s in old(index) && s.id in keep
      ensures forall id :: id in manifests <==> id in old(manifests) && (id in keep || forall s :: s in old(index) ==> s.id != id)
      ensures forall id :: id in manifests ==> manifests[id] == old(manifests)[id]
      ensures forall id, c :: (id, c) in refs <==> (id, c) in old(refs) && (id in keep || forall s :: s in old(index) ==> s.id != id)
      ensures forall k :: k in refs ==> refs[k] == old(refs)[k]
    {
      hide *;
      ghost var start := Store(index, manifests, refs, objects);
      var kept: seq<Summary> := [];
      deleted := 0;
      RemoveNone(manifests, refs);
      NothingPruned(start.index, keep);
      for i := 0 to |index|
        invariant index == start.index
        invariant kept == Kept(start.index[..i], keep)
        invariant manifests == WithoutManifests(start.manifests, Pruned(start.index[..i], keep))
        invariant refs == WithoutRefsOf(start.refs, Pruned(start.index[..i], keep))
        invariant deleted + |kept| == i
      {
        var s := index[i];
        NextPruned(start.index, keep, i);
        if s.id in keep {
          kept := kept + [s];
        } else {
          RemoveOne(start.manifests, start.refs, Pruned(start.index[..i], keep), s.id);
          manifests := RemoveManifest(manifests, s.id);
          refs := DropRefs(refs, s.id);
          deleted := deleted + 1;
        }
      }
      assert index[..|index|] == index;
      index := kept;
      PrunedAre(start, keep, index, manifests, refs);
    }

    /** Every hash a kept snapshot still references; fails on the first kept snapshot whose manifest is missing. */
    method Mark() returns (referenced: set<Hash>, ok: bool)
      ensures ok <==> IndexIds(index) <= manifests.Keys
      ensures ok ==> referenced == Referenced(Store(index, manifests, refs, objects), IndexIds(index))
    {
      ghost var now := Store(index, manifests, refs, objects);
      referenced := {};
      for i := 0 to |index|
        invariant IndexIds(index[..i]) <= manifests.Keys
        invariant referenced == Referenced(now, IndexIds(index[..i]))
      {
        var id := index[i].id;
        assert IndexIds(index[..i + 1]) == IndexIds(index[..i]) + {id} by {
          assert index[..i + 1] == index[..i] + [index[i]];
        }
        if id !in manifests {
          assert index[i] in index;
          return {}, false;
        }
        var hashes := MarkOne(id);
        referenced := referenced + hashes;
        ReferencedUnion(now, IndexIds(index[..i]), id);
      }
      assert index[..|index|] == index;
      ok := true;
    }

    method MarkOne(id: Id) returns (hashes: set<Hash>)
      requires id in manifests
      ensures hashes == Referenced(Store(index, manifests, refs, objects), {id})
    {
      var todo := manifests[id].docCounts.Keys;
      hashes := {};
      while todo != {}
        invariant todo <= manifests[id].docCounts.Keys
        invariant hashes == set c, h | c in manifests[id].docCounts.Keys - todo && h in HashesOf(RefList(refs, id, c)) :: h
        decreases |todo|
      {
        var c :| c in todo;
        todo := todo - {c};
        hashes := hashes + HashesOf(RefList(refs, id, c));
      }
    }

    /** gcLocked. */
    method GcLocked(keepLast: int) returns (r: GcResult, ok: bool, ghost keep: set<Id>)
      modifies this
      ensures IsKeepChoice(old(index), keepLast, keep)
      ensures Distinct(old(index)) && Determined(old(index), keepLast) ==> keep == KeepIds(old(index), keepLast)
      ensures DistinctIndex(old(index)) ==> KeepsNewest(old(index), keepLast, keep)
      ensures index == Kept(old(index), keep)
      ensures manifests == OnlyManifests(old(manifests), IndexIds(old(index)) * keep)
      ensures refs == WithoutRefsOf(old(refs), Abandoned(old(Value())) + (Pruned(old(index), keep)))
      ensures ok <==> IndexIds(index) <= old(manifests).Keys
      ensures ok ==> objects == old(objects) * Referenced(old(Value()), IndexIds(old(index)) * keep)
      ensures ok ==> r.manifestsDeleted + |index| == |old(index)| && r.objectsDeleted + |objects| == |old(objects)|
      ensures ok ==> r.abandonedRecovered == |Abandoned(old(Value()))|
      ensures !ok ==> objects == old(objects)
    {
      ghost var start := Store(index, manifests, refs, objects);
      assert start == Value();
      hide *;
      var abandoned := RecoverAbandoned();
      var chosen := ChooseKeep(index, keepLast);
      keep := chosen;
      var deleted := Prune(chosen);
      AfterPrune(start, keep);
      KeptIds(start.index, keep);
      var referenced;
      AfterMark(start, Store(index, manifests, refs, objects), keep);
      referenced, ok := Mark();
      if !ok {
        return GcResult(0, 0, 0), false, keep;
      }
      var swept := Sweep(referenced);
      return GcResult(deleted, swept, abandoned), true, keep;
    }

    /** Delete every object nothing kept refers to. */
    method Sweep(referenced: set<Hash>) returns (swept: nat)
      modifies `objects
      ensures objects == old(objects) * referenced
      ensures swept + |objects| == |old(objects)|
    {
      var todo := objects;
      swept := 0;
      while todo != {}
        invariant todo <= objects
        invariant forall h :: h in objects <==> h in old(objects) && (h in todo || h in referenced)
        invariant swept + |objects| == |old(objects)|
        decreases |todo|
      {
        var h :| h in todo;
        todo := todo - {h};
        if h !in referenced {
          ghost var was := objects;
          objects := objects - {h};
          assert was == objects + {h};
          swept := swept + 1;
        }
      }
    }
  }

  /** What recovery leaves, spelled out. */
  lemma RecoveredAre(start: Store, manifests: map<Id, Manifest>, refs: RefTable)
    requires manifests == WithoutManifests(start.manifests, Abandoned(start)) && refs == WithoutRefsOf(start.refs, Abandoned(start))
    ensures forall id :: id in manifests <==> id in start.manifests && exists s :: s in start.index && s.id == id
    ensures forall id :: id in manifests ==> manifests[id] == start.manifests[id]
    ensures forall id, c :: (id, c) in refs <==>
      (id, c) in start.refs && (id !in start.manifests || exists s :: s in start.index && s.id == id)
    ensures forall k :: k in refs ==> refs[k] == start.refs[k]
  {
  }

  /** What pruning leaves, spelled out. */
  lemma PrunedAre(start: Store, keep: set<Id>, index: seq<Summary>, manifests: map<Id, Manifest>, refs: RefTable)
    requires index == Kept(start.index, keep)
    requires manifests == WithoutManifests(start.manifests, Pruned(start.index, keep)) && refs == WithoutRefsOf(start.refs, Pruned(start.index, keep))
    ensures forall s :: s in index <==> s in start.index && s.id in keep
    ensures forall id :: id in manifests <==> id in start.manifests && (id in keep || forall s :: s in start.index ==> s.id != id)
    ensures forall id :: id in manifests ==> manifests[id] == start.manifests[id]
    ensures forall id, c :: (id, c) in refs <==> (id, c) in start.refs && (id in keep || forall s :: s in start.index ==> s.id != id)
    ensures forall k :: k in refs ==> refs[k] == start.refs[k]
  {
    forall s ensures s in index <==> s in start.index && s.id in keep {
      KeptMembers(start.index, keep, s);
    }
    hide Kept;
  }

  /** The two rounds of deletions, put together. */
  lemma AfterPrune(s: Store, keep: set<Id>)
    ensures WithoutManifests(WithoutManifests(s.manifests, Abandoned(s)), Pruned(s.index, keep))
            == OnlyManifests(s.manifests, IndexIds(s.index) * keep)
    ensures WithoutRefsOf(WithoutRefsOf(s.refs, Abandoned(s)), Pruned(s.index, keep))
            == WithoutRefsOf(s.refs, Abandoned(s) + Pruned(s.index, keep))
  {
  }

  /** After the deletions, the kept snapshots still reference what they referenced at the start. */
  lemma AfterMark(s: Store, s': Store, keep: set<Id>)
    requires IndexIds(s'.index) == IndexIds(s.index) * keep
    requires s'.manifests == OnlyManifests(s.manifests, IndexIds(s.index) * keep)
    requires s'.refs == WithoutRefsOf(s.refs, Abandoned(s) + Pruned(s.index, keep))
    ensures Referenced(s', IndexIds(s'.index)) == Referenced(s, IndexIds(s.index) * keep)
    ensures IndexIds(s'.index) <= s'.manifests.Keys <==> IndexIds(s'.index) <= s.manifests.Keys
  {
    ReferencedSame(s, s', IndexIds(s.index) * keep);
  }

  lemma ReferencedUnion(s: Store, ids: set<Id>, id: Id)
    ensures Referenced(s, ids + {id}) == Referenced(s, ids) + Referenced(s, {id})
  {
  }

  /** What the kept snapshots reference depends only on their own manifests and doc refs. */
  lemma ReferencedSame(s: Store, s': Store, ids: set<Id>)
    requires forall id :: id in ids ==> (id in s.manifests <==> id in s'.manifests)
    requires forall id :: id in ids && id in s.manifests ==> s'.manifests[id].docCounts == s.manifests[id].docCounts
    requires forall id, c :: id in ids ==> RefList(s'.refs, id, c) == RefList(s.refs, id, c)
    ensures Referenced(s', ids) == Referenced(s, ids)
  {
  }
}
