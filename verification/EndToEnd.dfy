/** The whole path of a snapshot's document list: workers, external sort, chunked store, stored iterator, merge join.
    End to end it is one simple thing, a map from document ID to content for every collection. */
module EndToEnd {
  import opened ByteStrings
  import opened Decimals
  import opened DocRefs
  import opened ExtSort
  import opened BoltStore
  import opened Pipeline
  import opened Diff
  import opened Compare

  /** Manifest `id` records `state` for the collection, and every document of it can be read back. */
  ghost predicate Records(codec: Codec, b: Bucket, objects: map<Hash, Bytes>, id: Bytes, coll: Bytes, state: map<Bytes, Bytes>)
  {
    && StrictlySorted(List(b, id, coll))
    && ToMap(List(b, id, coll)) == HashState(codec, state)
    && forall x :: x in state ==>
         codec.hashOf(state[x]) in objects && codec.decompress(objects[codec.hashOf(state[x])]) == state[x]
  }

  /** The largest collection whose chunk numbers still fit "%06d". */
  const MAX_DOCS: nat := MAX_CHUNKS * DOC_REF_CHUNK_SIZE

  /** Create's work on one collection: scan, sort, write the doc refs. `results` is what the workers delivered, in any
      order. Afterwards the manifest records exactly the collection's state, and no other stored list has changed. */
  method SnapshotCollection(codec: Codec, backend: BoltBackend, id: Bytes, coll: Bytes, docs: seq<Doc>,
                            results: seq<ScanResult>, runSize: int)
    returns (docCount: nat, newObjects: nat)
    requires codec.Sound() && codec.Filed(backend.objects)
    requires DistinctDocs(docs) && multiset(results) == multiset(WorkAll(codec, docs))
    requires |docs| <= MAX_DOCS
    requires WithPrefix(backend.docRefs, CollectionPrefix(id, coll)) == {}
    modifies backend
    ensures Records(codec, backend.docRefs, backend.objects, id, coll, State(docs))
    ensures exists refs :: backend.docRefs == PutChunks(old(backend.docRefs), id, coll, refs, DOC_REF_CHUNK_SIZE, 0)
    ensures codec.Filed(backend.objects)
    ensures forall h :: h in old(backend.objects) ==> h in backend.objects && backend.objects[h] == old(backend.objects)[h]
    ensures docCount == |docs| && newObjects == |backend.objects.Keys| - |old(backend.objects).Keys|
  {
    hide *;
    ghost var before, objects := backend.docRefs, backend.objects;
    DeliveredAll(codec, docs, results);
    SizesFit(|results|);
    var spill, ok;
    spill, docCount, newObjects, ok := ScanCollectionDocs(results, backend, runSize);
    RoomForRun(spill, |results|, |results| + 1);
    var it := spill.NewIterator();
    var sorted := Drain(it);
    var refs := new SliceIterator(sorted);
    backend.WriteDocRefs(id, coll, refs);
    ghost var stored := backend.objects;
    SortedScan(codec, docs, results, sorted);
    SortedSize(codec, docs, results, sorted);
    ListIsWritten(before, id, coll, sorted);
    ScannedIsReadable(codec, docs, results, objects, stored);
    MakesRecord(codec, backend.docRefs, stored, id, coll, docs, sorted);
  }

  lemma SizesFit(n: nat)
    requires n <= MAX_DOCS
    ensures n + 1 < Pow10(RUN_NAME_DIGITS)
  {
  }

  lemma DeliveredAll(codec: Codec, docs: seq<Doc>, results: seq<ScanResult>)
    requires multiset(results) == multiset(WorkAll(codec, docs))
    ensures AllScanned(results) && |results| == |docs|
  {
    assert |results| == |multiset(results)| == |multiset(WorkAll(codec, docs))| == |docs|;
    forall i | 0 <= i < |results| ensures results[i].Scanned? {
      assert results[i] in multiset(WorkAll(codec, docs));
      var j :| 0 <= j < |docs| && WorkAll(codec, docs)[j] == results[i];
    }
  }

  lemma SortedSize(codec: Codec, docs: seq<Doc>, results: seq<ScanResult>, sorted: seq<DocRef>)
    requires multiset(results) == multiset(WorkAll(codec, docs))
    requires multiset(sorted) == RefBag(results)
    ensures |sorted| == |docs|
  {
    RefBagPermuted(results, WorkAll(codec, docs));
    WorkBag(codec, docs);
    assert |sorted| == |multiset(sorted)| == |multiset(RefsOf(codec, docs))| == |docs|;
  }

  lemma ListIsWritten(b: Bucket, id: Bytes, coll: Bytes, refs: seq<DocRef>)
    requires WithPrefix(b, CollectionPrefix(id, coll)) == {}
    requires StrictlySorted(refs)
    ensures |refs| <= MAX_DOCS ==> List(PutChunks(b, id, coll, refs, DOC_REF_CHUNK_SIZE, 0), id, coll) == refs
  {
    WriteThenRead(b, id, coll, refs, DOC_REF_CHUNK_SIZE);
  }

  lemma MakesRecord(codec: Codec, b: Bucket, objects: map<Hash, Bytes>, id: Bytes, coll: Bytes, docs: seq<Doc>, refs: seq<DocRef>)
    requires List(b, id, coll) == refs && StrictlySorted(refs) && ToMap(refs) == HashState(codec, State(docs))
    requires DistinctDocs(docs)
    requires forall d :: d in docs ==> codec.hashOf(d.content) in objects && codec.decompress(objects[codec.hashOf(d.content)]) == d.content
    ensures Records(codec, b, objects, id, coll, State(docs))
  {
  }

  /** A record survives every later snapshot and every other manifest's deletion. */
  lemma RecordsLast(codec: Codec, b: Bucket, objects: map<Hash, Bytes>, id: Bytes, coll: Bytes, state: map<Bytes, Bytes>,
                    id': Bytes, coll': Bytes, refs: seq<DocRef>)
    requires Records(codec, b, objects, id, coll, state)
    requires NulFree(id) && NulFree(coll) && NulFree(id') && NulFree(coll')
    ensures id != id' || coll != coll' ==>
      Records(codec, PutChunks(b, id', coll', refs, DOC_REF_CHUNK_SIZE, 0), objects, id, coll, state)
    ensures id != id' ==> Records(codec, WithoutManifest(b, id'), objects, id, coll, state)
  {
    if id != id' || coll != coll' {
      PutChunksOthers(b, id', coll', refs, DOC_REF_CHUNK_SIZE, id, coll);
    }
    DeleteThenRead(b, id', id, coll);
  }

  /** The IDs that differ between two states of a collection, by kind. */
  ghost function ChangedDocs(kind: ChangeType, from: map<Bytes, Bytes>, to: map<Bytes, Bytes>): set<Bytes>
  {
    match kind
    case Added => to.Keys - from.Keys
    case Removed => from.Keys - to.Keys
    case Modified => set x | x in from && x in to && from[x] != to[x]
  }

  lemma HashesTellStatesApart(codec: Codec, from: map<Bytes, Bytes>, to: map<Bytes, Bytes>, kind: ChangeType)
    requires codec.Sound()
    ensures ChangedIds(kind, HashState(codec, from), HashState(codec, to)) == ChangedDocs(kind, from, to)
    ensures HashState(codec, from) == HashState(codec, to) <==> from == to
  {
    if HashState(codec, from) == HashState(codec, to) {
      forall x ensures x in from <==> x in to {
        assert x in HashState(codec, from) <==> x in HashState(codec, to);
      }
      forall x | x in from ensures from[x] == to[x] {
        assert HashState(codec, from)[x] == HashState(codec, to)[x];
      }
    }
  }

  /** What Compare reads for one side: the stored lists of a manifest. */
  function StoredSource(b: Bucket, id: Bytes): Source
  {
    (coll: Bytes) => List(b, id, coll)
  }

  /** A database, as far as Compare is concerned: the documents of each collection. */
  type DbState = map<Bytes, map<Bytes, Bytes>>

  /** A collection that is not there has no documents. */
  function DocsIn(db: DbState, c: Bytes): map<Bytes, Bytes>
  {
    if c in db then db[c] else map[]
  }

  function NonEmpty(db: DbState): DbState
  {
    map c | c in db && db[c] != map[] :: db[c]
  }

  /** Nothing has been written for this collection. */
  ghost predicate Unwritten(b: Bucket, id: Bytes, c: Bytes)
  {
    WithPrefix(b, CollectionPrefix(id, c)) == {}
  }

  /** Of these names, the manifest records the collections of the state, and nothing is written under the others. */
  ghost predicate RecordsState(codec: Codec, b: Bucket, objects: map<Hash, Bytes>, id: Bytes, db: DbState, names: set<Bytes>)
  {
    forall c :: c in names ==> if c in db then Records(codec, b, objects, id, c, db[c]) else Unwritten(b, id, c)
  }

  /** A list nobody wrote records a collection without documents. */
  lemma UnwrittenIsEmpty(codec: Codec, b: Bucket, objects: map<Hash, Bytes>, id: Bytes, c: Bytes)
    requires Unwritten(b, id, c)
    ensures Records(codec, b, objects, id, c, map[])
  {
    assert List(b, id, c) == [];
    assert ToMap([]).Keys == {};
  }

  lemma RecordsDocs(codec: Codec, b: Bucket, objects: map<Hash, Bytes>, id: Bytes, db: DbState, names: set<Bytes>, c: Bytes)
    requires RecordsState(codec, b, objects, id, db, names) && c in names
    ensures Records(codec, b, objects, id, c, DocsIn(db, c))
  {
    hide Records;
    if c !in db {
      UnwrittenIsEmpty(codec, b, objects, id, c);
    }
  }

  /** End to end: for two recorded database states, Compare reports exactly the collections whose documents differ, with the
      sizes of the added, removed and modified parts, and nothing at all exactly when the states are equal but for
      collections without documents: that such a collection was created or dropped does not show. */
  lemma CompareIsStateDifference(codec: Codec, b: Bucket, objects: map<Hash, Bytes>, fromId: Bytes, toId: Bytes, from: DbState, to: DbState)
    requires codec.Sound()
    requires RecordsState(codec, b, objects, fromId, from, from.Keys + to.Keys)
    requires RecordsState(codec, b, objects, toId, to, from.Keys + to.Keys)
    ensures var (names, diff) := (from.Keys + to.Keys, CompareSpec(from.Keys + to.Keys, StoredSource(b, fromId), StoredSource(b, toId)));
      && (forall c :: c in diff ==> c in names && diff[c] == CollectionDiff(
            |ChangedDocs(Added, DocsIn(from, c), DocsIn(to, c))|,
            |ChangedDocs(Removed, DocsIn(from, c), DocsIn(to, c))|,
            |ChangedDocs(Modified, DocsIn(from, c), DocsIn(to, c))|))
      && (forall c :: c in names ==> (c in diff <==> DocsIn(from, c) != DocsIn(to, c)))
      && (NoDifferences(diff) <==> NonEmpty(from) == NonEmpty(to))
  {
    hide *;
    var f, t := StoredSource(b, fromId), StoredSource(b, toId);
    var names := from.Keys + to.Keys;
    forall c | c in names
      ensures StrictlySorted(f(c)) && StrictlySorted(t(c))
      ensures ToMap(f(c)) == ToMap(t(c)) <==> DocsIn(from, c) == DocsIn(to, c)
      ensures ChangedIds(Added, ToMap(f(c)), ToMap(t(c))) == ChangedDocs(Added, DocsIn(from, c), DocsIn(to, c))
      ensures ChangedIds(Removed, ToMap(f(c)), ToMap(t(c))) == ChangedDocs(Removed, DocsIn(from, c), DocsIn(to, c))
      ensures ChangedIds(Modified, ToMap(f(c)), ToMap(t(c))) == ChangedDocs(Modified, DocsIn(from, c), DocsIn(to, c))
    {
      RecordsDocs(codec, b, objects, fromId, from, names, c);
      RecordsDocs(codec, b, objects, toId, to, names, c);
      SourcesTell(codec, b, objects, fromId, toId, c, DocsIn(from, c), DocsIn(to, c));
    }
    BothSorted(names, f);
    BothSorted(names, t);
    CompareCountsMapDifferences(names, f, t);
    NonEmptySame(from, to);
  }

  lemma BothSorted(names: set<Bytes>, s: Source)
    requires forall c :: c in names ==> StrictlySorted(s(c))
    ensures SortedSource(names, s)
  {
  }

  lemma SourcesTell(codec: Codec, b: Bucket, objects: map<Hash, Bytes>, fromId: Bytes, toId: Bytes, c: Bytes,
                    from: map<Bytes, Bytes>, to: map<Bytes, Bytes>)
    requires codec.Sound() && Records(codec, b, objects, fromId, c, from) && Records(codec, b, objects, toId, c, to)
    ensures var (f, t) := (StoredSource(b, fromId)(c), StoredSource(b, toId)(c));
      && StrictlySorted(f) && StrictlySorted(t)
      && (ToMap(f) == ToMap(t) <==> from == to)
      && ChangedIds(Added, ToMap(f), ToMap(t)) == ChangedDocs(Added, from, to)
      && ChangedIds(Removed, ToMap(f), ToMap(t)) == ChangedDocs(Removed, from, to)
      && ChangedIds(Modified, ToMap(f), ToMap(t)) == ChangedDocs(Modified, from, to)
  {
    hide Less;
    hide List;
    hide StrictlySorted;
    hide ToMap;
    hide HashState;
    hide ChangedDocs;
    hide ChangedIds;
    HashesTellStatesApart(codec, from, to, Added);
    HashesTellStatesApart(codec, from, to, Removed);
    HashesTellStatesApart(codec, from, to, Modified);
  }

  lemma NonEmptySame(from: DbState, to: DbState)
    ensures NonEmpty(from) == NonEmpty(to) <==> forall c :: c in from.Keys + to.Keys ==> DocsIn(from, c) == DocsIn(to, c)
  {
    var a, b := NonEmpty(from), NonEmpty(to);
    if a == b {
      forall c | c in from.Keys + to.Keys ensures DocsIn(from, c) == DocsIn(to, c) {
        assert DocsIn(from, c) == DocsIn(a, c) && DocsIn(to, c) == DocsIn(b, c);
      }
    }
    if forall c :: c in from.Keys + to.Keys ==> DocsIn(from, c) == DocsIn(to, c) {
      forall c ensures c in a <==> c in b
               ensures c in a ==> a[c] == b[c] {
        assert c in from.Keys + to.Keys ==> DocsIn(from, c) == DocsIn(to, c);
      }
    }
  }
}
