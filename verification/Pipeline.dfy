/** Scanning one collection into the store, and what a stored snapshot of it means. */
module Pipeline {
  import opened ByteStrings
  import opened Decimals
  import opened DocRefs
  import opened Permutations
  import opened ExtSort
  import opened BoltStore

  /** The hash and the compressor, known only by what the store relies on. */
  datatype Codec = Codec(hashOf: Bytes -> Hash, compress: Bytes -> Bytes, decompress: Bytes -> Bytes)
  {
    ghost predicate Sound()
    {
      && (forall a, b :: hashOf(a) == hashOf(b) ==> a == b)
      && (forall a :: decompress(compress(a)) == a)
    }

    function Encode(content: Bytes): EncodedObject
    {
      EncodedObject(hashOf(content), compress(content))
    }

    /** Every stored object is filed under the hash of its content. */
    ghost predicate Filed(objects: map<Hash, Bytes>)
    {
      forall h :: h in objects ==> hashOf(decompress(objects[h])) == h
    }
  }

  /** A document as read from the database: its _id key and its canonical bytes. */
  datatype Doc = Doc(id: Bytes, content: Bytes)

  /** What a worker sends to the writer. */
  datatype ScanResult = Scanned(ref: DocRef, obj: EncodedObject) | Failed

  function Work(codec: Codec, doc: Doc): ScanResult
  {
    Scanned(DocRef(doc.id, codec.hashOf(doc.content)), codec.Encode(doc.content))
  }

  /** The results of all documents, in reading order; the workers deliver some rearrangement of them. */
  function WorkAll(codec: Codec, docs: seq<Doc>): (rs: seq<ScanResult>)
    ensures |rs| == |docs| && forall i :: 0 <= i < |rs| ==> rs[i] == Work(codec, docs[i])
  {
    seq(|docs|, i requires 0 <= i < |docs| => Work(codec, docs[i]))
  }

  function RefBag(results: seq<ScanResult>): multiset<DocRef>
  {
    if results == [] then multiset{}
    else BagOf(results[0]) + RefBag(results[1..])
  }

  function BagOf(r: ScanResult): multiset<DocRef>
  {
    match r case Scanned(ref, _) => multiset{ref} case Failed => multiset{}
  }

  function Objects(results: seq<ScanResult>): seq<EncodedObject>
  {
    if results == [] then []
    else Objects(results[..|results| - 1]) +
         (match results[|results| - 1] case Scanned(_, o) => [o] case Failed => [])
  }

  predicate AllScanned(results: seq<ScanResult>)
  {
    forall i :: 0 <= i < |results| ==> results[i].Scanned?
  }

  const WRITE_BATCH_SIZE: nat := 500

  /** The writer's side of scanCollectionDocs: spill every ref, store objects in batches, stop working (but keep
      draining) after the first error. `store` is null for a live scan. */
  method ScanCollectionDocs(results: seq<ScanResult>, store: BoltBackend?, runSize: int)
    returns (spill: ExtSortSpill, docCount: nat, newObjects: nat, ok: bool)
    requires |results| < Pow10(RUN_NAME_DIGITS)
    modifies if store == null then {} else {store}
    ensures store != null ==> store.docRefs == old(store.docRefs)
    ensures ok <==> AllScanned(results)
    ensures fresh(spill) && fresh(spill.dir) && spill.Valid()
    ensures ok ==> spill.added == RefBag(results) && docCount == |results| && |spill.runPaths| <= |results|
    ensures ok && store == null ==> newObjects == 0
    ensures ok && store != null ==>
      Stored(old(store.objects), Objects(results), store.objects) && newObjects == |store.objects.Keys| - |old(store.objects).Keys|
    ensures store != null ==> forall h :: h in old(store.objects) ==> h in store.objects && store.objects[h] == old(store.objects)[h]
  {
    hide *;
    spill := new ExtSortSpill(runSize);
    var batch: seq<EncodedObject> := [];
    docCount, newObjects := 0, 0;
    var failed := false;
    ghost var flushed: seq<EncodedObject> := [];
    NothingScanned(results[..0], if store == null then map[] else store.objects);
    for i := 0 to |results|
      invariant spill.Valid() && fresh(spill) && fresh(spill.dir)
      invariant store != null ==> store.docRefs == old(store.docRefs)
      invariant failed <==> !AllScanned(results[..i])
      invariant |spill.runPaths| <= docCount <= i
      invariant !failed ==> docCount == i && spill.added == RefBag(results[..i])
      invariant store == null ==> newObjects == 0
      invariant store != null ==> Stored(old(store.objects), flushed, store.objects)
      invariant store != null ==> newObjects == |store.objects.Keys| - |old(store.objects).Keys|
      invariant store != null && !failed ==> flushed + batch == Objects(results[..i])
    {
      NextScanned(results, i);
      if results[i].Failed? {
        failed := true;
      } else if !failed {
        RoomForRun(spill, docCount, |results|);
        spill.Add(results[i].ref);
        docCount := docCount + 1;
        if store != null {
          ghost var before := batch;
          batch := batch + [results[i].obj];
          assert flushed + batch == flushed + before + [results[i].obj];
          if |batch| >= WRITE_BATCH_SIZE {
            ghost var mid := store.objects;
            var n := store.PutMany(batch);
            StoredThen(old(store.objects), flushed, mid, batch, store.objects);
            newObjects := newObjects + n;
            flushed := flushed + batch;
            batch := [];
            assert flushed + batch == flushed;
          }
        }
      }
    }
    assert results[..|results|] == results;
    ok := !failed;
    if store != null {
      ghost var mid := store.objects;
      var n := store.PutMany(batch);
      StoredThen(old(store.objects), flushed, mid, batch, store.objects);
      newObjects := newObjects + n;
      StoredKeeps(old(store.objects), flushed + batch, store.objects);
    }
  }

  lemma NothingScanned(results: seq<ScanResult>, objects: map<Hash, Bytes>)
    requires results == []
    ensures AllScanned(results) && RefBag(results) == multiset{} && Objects(results) == []
    ensures Stored(objects, [], objects)
  {
  }

  lemma NextScanned(results: seq<ScanResult>, i: nat)
    requires i < |results|
    ensures AllScanned(results[..i + 1]) <==> AllScanned(results[..i]) && results[i].Scanned?
    ensures results[i].Scanned? ==>
      && RefBag(results[..i + 1]) == RefBag(results[..i]) + multiset{results[i].ref}
      && Objects(results[..i + 1]) == Objects(results[..i]) + [results[i].obj]
  {
    var r, before := results[i], results[..i];
    assert results[..i + 1] == before + [r];
    assert AllScanned(before + [r]) <==> AllScanned(before) && r.Scanned? by {
      assert forall j :: 0 <= j < i ==> (before + [r])[j] == before[j];
      assert (before + [r])[i] == r;
    }
    hide AllScanned;
    assert (before + [r])[..i] == before;
    assert r.Scanned? ==> Objects(before + [r]) == Objects(before) + [r.obj];
    hide Objects;
    RefBagConcat(before, [r]);
    assert [r][1..] == [];
    assert RefBag([r]) == BagOf(r) + RefBag([]);
  }

  lemma StoredKeeps(before: map<Hash, Bytes>, items: seq<EncodedObject>, after: map<Hash, Bytes>)
    requires Stored(before, items, after)
    ensures forall h :: h in before ==> h in after && after[h] == before[h]
  {
  }

  // ---- What a scan stores ----

  predicate DistinctDocs(docs: seq<Doc>)
  {
    forall i, j :: 0 <= i < j < |docs| ==> docs[i].id != docs[j].id
  }

  /** The state of a collection: document by ID. */
  function State(docs: seq<Doc>): (m: map<Bytes, Bytes>)
    ensures m.Keys == set d | d in docs :: d.id
    ensures DistinctDocs(docs) ==> forall d :: d in docs ==> m[d.id] == d.content
  {
    if docs == [] then map[]
    else
      assert docs == [docs[0]] + docs[1..];
      assert DistinctDocs(docs) ==> DistinctDocs(docs[1..]);
      State(docs[1..])[docs[0].id := docs[0].content]
  }

  ghost function HashState(codec: Codec, state: map<Bytes, Bytes>): map<Bytes, Hash>
  {
    map id | id in state :: codec.hashOf(state[id])
  }

  lemma {:induction false} RefBagConcat(a: seq<ScanResult>, b: seq<ScanResult>)
    ensures RefBag(a + b) == RefBag(a) + RefBag(b)
    decreases |a|
  {
    if a == [] {
      assert a + b == b;
    } else {
      assert (a + b)[1..] == a[1..] + b;
      RefBagConcat(a[1..], b);
    }
  }

  lemma RefBagSplit(a: seq<ScanResult>, k: nat)
    requires k < |a|
    ensures RefBag(a) == BagOf(a[k]) + RefBag(a[..k] + a[k + 1..])
  {
    assert a[k..][1..] == a[k + 1..];
    assert RefBag(a[k..]) == BagOf(a[k]) + RefBag(a[k + 1..]);
    hide *;
    RefBagConcat(a[..k], a[k + 1..]);
    RefBagConcat(a[..k], a[k..]);
    assert a == a[..k] + a[k..];
    Regroup(RefBag(a[..k]), BagOf(a[k]), RefBag(a[k + 1..]));
  }

  /** The order in which workers deliver does not matter. */
  lemma {:induction false} RefBagPermuted(a: seq<ScanResult>, b: seq<ScanResult>)
    requires multiset(a) == multiset(b)
    ensures RefBag(a) == RefBag(b)
    decreases |a|
  {
    hide RefBag;
    assert |a| == |multiset(a)| == |multiset(b)| == |b|;
    if a != [] {
      assert a[0] in multiset(b);
      var k :| 0 <= k < |b| && b[k] == a[0];
      RefBagSplit(a, 0);
      RefBagSplit(b, k);
      RestPermuted(a, b, k);
      assert a[..0] + a[0 + 1..] == a[1..];
      RefBagPermuted(a[1..], b[..k] + b[k + 1..]);
    }
  }

  function RefsOf(codec: Codec, docs: seq<Doc>): (refs: seq<DocRef>)
    ensures |refs| == |docs| && forall i :: 0 <= i < |refs| ==> refs[i] == DocRef(docs[i].id, codec.hashOf(docs[i].content))
  {
    seq(|docs|, i requires 0 <= i < |docs| => DocRef(docs[i].id, codec.hashOf(docs[i].content)))
  }

  lemma {:induction false} WorkBag(codec: Codec, docs: seq<Doc>)
    ensures RefBag(WorkAll(codec, docs)) == multiset(RefsOf(codec, docs))
    decreases |docs|
  {
    if docs != [] {
      WorkBag(codec, docs[1..]);
      assert WorkAll(codec, docs)[1..] == WorkAll(codec, docs[1..]);
      assert RefsOf(codec, docs) == [RefsOf(codec, docs)[0]] + RefsOf(codec, docs[1..]);
    }
  }

  lemma HashStatePut(codec: Codec, m: map<Bytes, Bytes>, id: Bytes, content: Bytes)
    ensures HashState(codec, m[id := content]) == HashState(codec, m)[id := codec.hashOf(content)]
  {
  }

  lemma {:induction false} RefsStandForState(codec: Codec, docs: seq<Doc>)
    ensures ToMap(RefsOf(codec, docs)) == HashState(codec, State(docs))
    decreases |docs|
  {
    hide HashState;
    var refs := RefsOf(codec, docs);
    if docs == [] {
      HashStateEmpty(codec);
    } else {
      RefsStandForState(codec, docs[1..]);
      assert refs[1..] == RefsOf(codec, docs[1..]);
      HashStatePut(codec, State(docs[1..]), docs[0].id, docs[0].content);
    }
  }

  lemma HashStateEmpty(codec: Codec)
    ensures HashState(codec, map[]) == map[]
  {
  }

  lemma RefsDistinct(codec: Codec, docs: seq<Doc>)
    requires DistinctDocs(docs)
    ensures DistinctIds(RefsOf(codec, docs))
  {
  }

  /** Whatever order the workers deliver in, sorting what was spilled gives the one strictly sorted list that stands
      for the collection's state. */
  lemma SortedScan(codec: Codec, docs: seq<Doc>, results: seq<ScanResult>, sorted: seq<DocRef>)
    requires DistinctDocs(docs) && multiset(results) == multiset(WorkAll(codec, docs))
    requires Sorted(sorted) && multiset(sorted) == RefBag(results)
    ensures StrictlySorted(sorted) && ToMap(sorted) == HashState(codec, State(docs))
  {
    hide *;
    RefBagPermuted(results, WorkAll(codec, docs));
    WorkBag(codec, docs);
    RefsStandForState(codec, docs);
    RefsDistinct(codec, docs);
    SameMap(RefsOf(codec, docs), sorted);
    StrictIsSortedDistinct(sorted);
  }

  lemma {:induction false} ObjectsMembers(results: seq<ScanResult>, o: EncodedObject)
    ensures o in Objects(results) <==> exists r :: r in results && r.Scanned? && r.obj == o
    decreases |results|
  {
    if results != [] {
      var n := |results| - 1;
      assert results == results[..n] + [results[n]];
      ObjectsMembers(results[..n], o);
    }
  }

  /** After a scan every document's content can be read back under its hash, even where the object was already there,
      and every stored object is still filed under its own hash. */
  lemma ScannedIsReadable(codec: Codec, docs: seq<Doc>, results: seq<ScanResult>, before: map<Hash, Bytes>,
                          after: map<Hash, Bytes>)
    requires codec.Sound() && codec.Filed(before)
    requires multiset(results) == multiset(WorkAll(codec, docs))
    requires Stored(before, Objects(results), after)
    ensures codec.Filed(after)
    ensures forall d :: d in docs ==> codec.hashOf(d.content) in after && codec.decompress(after[codec.hashOf(d.content)]) == d.content
  {
    var rs := WorkAll(codec, docs);
    forall h | h in after
      ensures codec.hashOf(codec.decompress(after[h])) == h
    {
      if h !in before {
        var o := EncodedObject(h, after[h]);
        ObjectsMembers(results, o);
        var r :| r in results && r.Scanned? && r.obj == o;
        assert r in multiset(rs);
        var i :| 0 <= i < |rs| && rs[i] == r;
      }
    }
    forall d | d in docs
      ensures codec.hashOf(d.content) in after && codec.decompress(after[codec.hashOf(d.content)]) == d.content
    {
      var i :| 0 <= i < |docs| && docs[i] == d;
      assert rs[i] in multiset(results);
      ObjectsMembers(results, rs[i].obj);
      assert rs[i].obj.hash in HashSet(Objects(results));
    }
  }
}
