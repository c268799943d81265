/** A destructive restore behind a safety snapshot: the snapshot of the whole target, the restore, and the rollback. */
module SafeRestore {
  import opened ByteStrings
  import opened DocRefs
  import opened ExtSort
  import opened Options
  import opened BoltStore
  import opened Pipeline
  import opened EndToEnd
  import R = Restore

  // ---- What a snapshot of a live database records ----

  /** The documents of a collection in some reading order. */
  method ReadAll(docs: map<Bytes, Bytes>) returns (list: seq<Doc>)
    ensures DistinctDocs(list) && State(list) == docs && |list| == |docs|
  {
    list := [];
    var todo := docs.Keys;
    while todo != {}
      invariant todo <= docs.Keys && |list| + |todo| == |docs|
      invariant forall d :: d in list ==> d.id in docs && d.id !in todo && d.content == docs[d.id]
      invariant forall x :: x in docs && x !in todo ==> Doc(x, docs[x]) in list
      invariant DistinctDocs(list)
      decreases |todo|
    {
      var x :| x in todo;
      todo := todo - {x};
      list := list + [Doc(x, docs[x])];
    }
    StateIs(list, docs);
  }

  lemma StateIs(list: seq<Doc>, docs: map<Bytes, Bytes>)
    requires DistinctDocs(list)
    requires forall d :: d in list ==> d.id in docs && d.content == docs[d.id]
    requires forall x :: x in docs ==> Doc(x, docs[x]) in list
    ensures State(list) == docs
  {
  }

  /** Each ref of a recording list leads to the document of its ID. */
  lemma RefLeadsToDoc(w: R.Wire, objects: map<Hash, Bytes>, refs: seq<DocRef>, state: map<Bytes, Bytes>, i: nat)
    requires w.codec.Sound() && DistinctIds(refs) && ToMap(refs) == HashState(w.codec, state)
    requires forall x :: x in state ==>
      w.idOf(state[x]) == x && w.codec.hashOf(state[x]) in objects && w.codec.decompress(objects[w.codec.hashOf(state[x])]) == state[x]
    requires i < |refs|
    ensures refs[i].hash in objects && refs[i].id in state && R.DocAt(w, objects, refs[i]) == Doc(refs[i].id, state[refs[i].id])
  {
  }

  lemma RefsCover(refs: seq<DocRef>, codec: Codec, state: map<Bytes, Bytes>)
    requires ToMap(refs) == HashState(codec, state)
    ensures forall x :: x in state <==> exists i :: 0 <= i < |refs| && refs[i].id == x
  {
    assert ToMap(refs).Keys == state.Keys;
  }

  /** Documents with these IDs and contents, inserted into nothing, are the state. */
  lemma InsertedIs(docs: seq<Doc>, state: map<Bytes, Bytes>)
    requires DistinctDocs(docs) && (set d | d in docs :: d.id) == state.Keys
    requires forall d :: d in docs ==> d.content == state[d.id]
    ensures R.WithDocs(None, docs) == if state == map[] then None else Some(R.Collection(state, {}))
  {
    R.WithDocsHas(None, docs);
    if docs == [] {
      assert state.Keys == {};
    } else {
      assert R.WithDocs(None, docs).Some? && docs[0] in docs;
      hide R.WithDocs;
      hide DistinctDocs;
      var got := R.DocsOf(R.WithDocs(None, docs));
      assert got.Keys == state.Keys;
      assert forall x :: x in state ==> exists d :: d in docs && d.id == x;
      assert got == state;
    }
  }

  /** A stored list that records a state restores to exactly that state. */
  lemma RecordedRestores(w: R.Wire, b: Bucket, objects: map<Hash, Bytes>, id: Bytes, c: Bytes, state: map<Bytes, Bytes>)
    requires w.codec.Sound() && Records(w.codec, b, objects, id, c, state)
    requires forall x :: x in state ==> w.idOf(state[x]) == x
    ensures R.AllStored(objects, List(b, id, c)) && DistinctDocs(R.DocsAt(w, objects, List(b, id, c)))
    ensures R.WithDocs(None, R.DocsAt(w, objects, List(b, id, c))) == if state == map[] then None else Some(R.Collection(state, {}))
  {
    var refs := List(b, id, c);
    StrictIsSortedDistinct(refs);
    hide Less;
    hide List;
    hide ToMap;
    hide HashState;
    hide StrictlySorted;
    hide R.WithDocs;
    hide R.DocAt;
    var docs := R.DocsAt(w, objects, refs);
    RefsCover(refs, w.codec, state);
    forall i | 0 <= i < |refs|
      ensures refs[i].hash in objects && docs[i] == Doc(refs[i].id, state[refs[i].id]) && refs[i].id in state
    {
      RefLeadsToDoc(w, objects, refs, state, i);
    }
    forall x | x in state ensures x in (set d | d in docs :: d.id) {
      var i :| 0 <= i < |refs| && refs[i].id == x;
      assert docs[i] in docs && docs[i].id == x;
    }
    InsertedIs(docs, state);
  }

  // ---- Create, over a whole database ----

  /** The collections are ones the store can take, and idOf reads each document's own _id. */
  ghost predicate Storable(w: R.Wire, db: R.Database)
  {
    forall c :: c in db ==> StorableColl(w, c, db[c])
  }

  ghost predicate StorableColl(w: R.Wire, c: Bytes, x: R.Collection)
  {
    && NulFree(c) && |x.docs| <= MAX_DOCS
    && (forall id :: id in x.docs ==> w.idOf(x.docs[id]) == id)
    && (forall s :: s in x.indexes ==> s.name != R.ID_INDEX) && R.Compatible(x.indexes)
  }

  /** The manifest and the stored lists hold the collection whole. */
  ghost predicate Holds(w: R.Wire, b: Bucket, objects: map<Hash, Bytes>, m: R.SavedManifest, c: Bytes, x: R.Collection)
  {
    && c in m.collections && R.Explicit(m.collections[c]) == x.indexes
    && Records(w.codec, b, objects, m.id, c, x.docs)
  }

  /** The snapshot holds the whole database. */
  ghost predicate Covers(w: R.Wire, b: Bucket, objects: map<Hash, Bytes>, m: R.SavedManifest, db: R.Database)
  {
    m.collections.Keys == db.Keys && forall c :: c in db ==> Holds(w, b, objects, m, c, db[c])
  }

  /** Other snapshots' lists are as they were, and no object is gone. */
  ghost predicate OthersKept(b: Bucket, objects: map<Hash, Bytes>, b': Bucket, objects': map<Hash, Bytes>, id: Bytes)
  {
    && (forall id', c :: NulFree(id') && NulFree(c) && id' != id ==> List(b', id', c) == List(b, id', c))
    && (forall h :: h in objects ==> h in objects' && objects'[h] == objects[h])
  }

  lemma OthersKeptSelf(b: Bucket, objects: map<Hash, Bytes>, id: Bytes)
    ensures OthersKept(b, objects, b, objects, id)
  {
  }

  lemma OthersKeptTrans(b0: Bucket, o0: map<Hash, Bytes>, b1: Bucket, o1: map<Hash, Bytes>, b2: Bucket, o2: map<Hash,
                        Bytes>, id: Bytes)
    requires OthersKept(b0, o0, b1, o1, id) && OthersKept(b1, o1, b2, o2, id)
    ensures OthersKept(b0, o0, b2, o2, id)
  {
  }

  lemma CollectionWritten(b: Bucket, objects: map<Hash, Bytes>, b': Bucket, objects': map<Hash, Bytes>, id: Bytes, c: Bytes)
    requires NulFree(id) && NulFree(c)
    requires exists refs :: b' == PutChunks(b, id, c, refs, DOC_REF_CHUNK_SIZE, 0)
    requires forall h :: h in objects ==> h in objects' && objects'[h] == objects[h]
    ensures OthersKept(b, objects, b', objects', id)
    ensures forall c' :: NulFree(c') && c' != c && Unwritten(b, id, c') ==> Unwritten(b', id, c')
  {
    hide List;
    hide PutChunks;
    hide Less;
    var refs :| b' == PutChunks(b, id, c, refs, DOC_REF_CHUNK_SIZE, 0);
    forall id', c' | NulFree(id') && NulFree(c') && (id' != id || c' != c)
      ensures List(b', id', c') == List(b, id', c')
      ensures WithPrefix(b', CollectionPrefix(id', c')) == WithPrefix(b, CollectionPrefix(id', c'))
    {
      PutChunksOthers(b, id, c, refs, DOC_REF_CHUNK_SIZE, id', c');
    }
  }

  lemma StillHolds(w: R.Wire, b: Bucket, objects: map<Hash, Bytes>, b': Bucket, objects': map<Hash, Bytes>,
                   m: R.SavedManifest, c: Bytes, c': Bytes, x: R.Collection)
    requires Holds(w, b, objects, m, c', x) && NulFree(m.id) && NulFree(c) && NulFree(c') && c' != c
    requires exists refs :: b' == PutChunks(b, m.id, c, refs, DOC_REF_CHUNK_SIZE, 0)
    requires forall h :: h in objects ==> h in objects' && objects'[h] == objects[h]
    ensures Holds(w, b', objects', m, c', x)
  {
    hide List;
    hide PutChunks;
    hide Less;
    var refs :| b' == PutChunks(b, m.id, c, refs, DOC_REF_CHUNK_SIZE, 0);
    PutChunksOthers(b, m.id, c, refs, DOC_REF_CHUNK_SIZE, m.id, c');
  }

  /** scanIndexes: the _id index and the others, in some order. */
  method ListIndexes(indexes: set<R.IndexSpec>, idDef: Bytes) returns (specs: seq<R.IndexSpec>)
    requires forall s :: s in indexes ==> s.name != R.ID_INDEX
    ensures R.Explicit(specs) == indexes
  {
    specs := [R.IndexSpec(R.ID_INDEX, idDef)];
    var todo := indexes;
    while todo != {}
      invariant todo <= indexes && R.Explicit(specs) == indexes - todo
      decreases |todo|
    {
      var s :| s in todo;
      todo := todo - {s};
      OneIndexMore(specs, s);
      specs := specs + [s];
    }
  }

  lemma OneIndexMore(specs: seq<R.IndexSpec>, s: R.IndexSpec)
    requires s.name != R.ID_INDEX
    ensures R.Explicit(specs + [s]) == R.Explicit(specs) + {s}
  {
  }

  /** One collection of Create: its indexes and its documents. */
  method ScanOne(w: R.Wire, backend: BoltBackend, m: R.SavedManifest, db: R.Database, ghost todo: set<Bytes>, c: Bytes,
                 idDef: Bytes, runSize: int) returns (specs: seq<R.IndexSpec>)
    requires w.codec.Sound() && w.codec.Filed(backend.objects) && Storable(w, db) && NulFree(m.id)
    requires Scanned(w, backend.docRefs, backend.objects, m, db, todo) && c in todo && todo <= db.Keys
    modifies backend
    ensures w.codec.Filed(backend.objects)
    ensures Scanned(w, backend.docRefs, backend.objects, m.(collections := m.collections[c := specs]), db, todo - {c})
    ensures OthersKept(old(backend.docRefs), old(backend.objects), backend.docRefs, backend.objects, m.id)
  {
    hide *;
    StorableOne(w, db, c);
    ghost var b, objects := backend.docRefs, backend.objects;
    ScannedAt(w, b, objects, m, db, todo, c);
    specs := ListIndexes(db[c].indexes, idDef);
    var docs := ReadAll(db[c].docs);
    var count, newObjects := SnapshotCollection(w.codec, backend, m.id, c, docs, WorkAll(w.codec, docs), runSize);
    CollectionWritten(b, objects, backend.docRefs, backend.objects, m.id, c);
    ScannedNext(w, b, objects, backend.docRefs, backend.objects, m, db, todo, c, specs);
  }

  /** Create: scan every collection of the target into the store under a fresh manifest ID. A read may fail. */
  method Create(w: R.Wire, backend: BoltBackend, id: Bytes, target: R.Target, idDef: Bytes,
                runSize: int) returns (m: R.SavedManifest, ok: bool)
    requires w.codec.Sound() && w.codec.Filed(backend.objects) && Storable(w, target.db)
    requires NulFree(id) && forall c :: Unwritten(backend.docRefs, id, c)
    modifies backend, target`clock
    ensures m.id == id && (ok ==> Covers(w, backend.docRefs, backend.objects, m, target.db))
    ensures old(target.clock) <= target.clock
    ensures var end := old(target.clock) + |target.db|;
      && (ok ==> target.clock == end && target.FineIn(old(target.clock), end))
      && (target.FineIn(old(target.clock), end) ==> ok)
    ensures OthersKept(old(backend.docRefs), old(backend.objects), backend.docRefs, backend.objects, id)
  {
    hide *;
    ghost var from, now, end := target.clock, target.clock, target.clock + |target.db|;
    m := R.SavedManifest(id, map[]);
    ScannedNone(w, backend.docRefs, backend.objects, m, target.db);
    R.NoneFails(target, from);
    var todo := target.db.Keys;
    OthersKeptSelf(backend.docRefs, backend.objects, id);
    while todo != {}
      invariant todo <= target.db.Keys && m.id == id && w.codec.Filed(backend.objects)
      invariant Scanned(w, backend.docRefs, backend.objects, m, target.db, todo)
      invariant target.clock == now && from <= now && now + |todo| == end && target.FineIn(from, now)
      invariant OthersKept(old(backend.docRefs), old(backend.objects), backend.docRefs, backend.objects, id)
      decreases |todo|
    {
      var c :| c in todo;
      OneLess(todo, c);
      R.NextFine(target, from, now, end);
      var readable := target.Read();
      if !readable {
        return m, false;
      }
      now := now + 1;
      ghost var b, objects := backend.docRefs, backend.objects;
      var specs := ScanOne(w, backend, m, target.db, todo, c, idDef, runSize);
      OthersKeptTrans(old(backend.docRefs), old(backend.objects), b, objects, backend.docRefs, backend.objects, id);
      m := m.(collections := m.collections[c := specs]);
      todo := todo - {c};
    }
    ScannedAll(w, backend.docRefs, backend.objects, m, target.db, todo);
    ok := true;
  }

  lemma OneLess(todo: set<Bytes>, c: Bytes)
    requires c in todo
    ensures |todo| == |todo - {c}| + 1
  {
  }

  /** Create has got through all the collections but these. */
  ghost predicate Scanned(w: R.Wire, b: Bucket, objects: map<Hash, Bytes>, m: R.SavedManifest, db: R.Database, todo: set<Bytes>)
  {
    && m.collections.Keys == db.Keys - todo
    && (forall c :: c in db && c !in todo ==> Holds(w, b, objects, m, c, db[c]))
    && (forall c :: c in todo ==> Unwritten(b, m.id, c))
  }

  lemma ScannedNone(w: R.Wire, b: Bucket, objects: map<Hash, Bytes>, m: R.SavedManifest, db: R.Database)
    requires m.collections == map[] && forall c :: Unwritten(b, m.id, c)
    ensures Scanned(w, b, objects, m, db, db.Keys)
  {
  }

  lemma ScannedAt(w: R.Wire, b: Bucket, objects: map<Hash, Bytes>, m: R.SavedManifest, db: R.Database, todo: set<Bytes>, c: Bytes)
    requires Scanned(w, b, objects, m, db, todo) && c in todo
    ensures WithPrefix(b, CollectionPrefix(m.id, c)) == {}
  {
  }

  lemma ScannedAll(w: R.Wire, b: Bucket, objects: map<Hash, Bytes>, m: R.SavedManifest, db: R.Database, todo: set<Bytes>)
    requires Scanned(w, b, objects, m, db, todo) && todo == {}
    ensures Covers(w, b, objects, m, db)
  {
  }

  lemma ScannedNext(w: R.Wire, b: Bucket, objects: map<Hash, Bytes>, b': Bucket, objects': map<Hash, Bytes>, m: R.SavedManifest,
                    db: R.Database, todo: set<Bytes>, c: Bytes, specs: seq<R.IndexSpec>)
    requires Storable(w, db) && NulFree(m.id) && Scanned(w, b, objects, m, db, todo) && c in todo && todo <= db.Keys
    requires exists refs :: b' == PutChunks(b, m.id, c, refs, DOC_REF_CHUNK_SIZE, 0)
    requires forall h :: h in objects ==> h in objects' && objects'[h] == objects[h]
    requires R.Explicit(specs) == db[c].indexes && Records(w.codec, b', objects', m.id, c, db[c].docs)
    ensures Scanned(w, b', objects', m.(collections := m.collections[c := specs]), db, todo - {c})
  {
    hide StorableColl;
    hide Holds;
    hide Unwritten;
    hide Records;
    var m' := m.(collections := m.collections[c := specs]);
    StorableOne(w, db, c);
    CollectionWritten(b, objects, b', objects', m.id, c);
    HoldsNow(w, b', objects', m', c, db[c]);
    forall c' | c' in db && c' !in todo ensures Holds(w, b', objects', m', c', db[c']) {
      StorableOne(w, db, c');
      StillHolds(w, b, objects, b', objects', m, c, c', db[c']);
      assert c' in m.collections;
      HoldsUnder(w, b', objects', m, m', c', db[c']);
    }
    forall c' | c' in todo && c' != c ensures Unwritten(b', m.id, c') {
      StorableOne(w, db, c');
    }
  }

  lemma StorableOne(w: R.Wire, db: R.Database, c: Bytes)
    requires Storable(w, db) && c in db
    ensures NulFree(c) && |db[c].docs| <= MAX_DOCS && (forall s :: s in db[c].indexes ==> s.name != R.ID_INDEX)
  {
  }

  lemma HoldsNow(w: R.Wire, b: Bucket, objects: map<Hash, Bytes>, m: R.SavedManifest, c: Bytes, x: R.Collection)
    requires c in m.collections && R.Explicit(m.collections[c]) == x.indexes && Records(w.codec, b, objects, m.id, c, x.docs)
    ensures Holds(w, b, objects, m, c, x)
  {
  }

  lemma HoldsUnder(w: R.Wire, b: Bucket, objects: map<Hash, Bytes>, m: R.SavedManifest, m': R.SavedManifest, c: Bytes,
                   x: R.Collection)
    requires Holds(w, b, objects, m, c, x) && m'.id == m.id && c in m'.collections && m'.collections[c] == m.collections[c]
    ensures Holds(w, b, objects, m', c, x)
  {
  }

  // ---- Give back what was recorded ----

  /** What a drop restore makes of a recorded collection: the collection itself, except that one with neither documents
      nor indexes of its own is dropped and never created again. */
  function GivenBack(x: R.Collection): Option<R.Collection>
  {
    if x.docs == map[] && x.indexes == {} then None else Some(x)
  }

  /** A collection recorded by Create and restored with Drop, whatever happened to it in between. */
  lemma RestoreGivesBack(w: R.Wire, backend: BoltBackend, m: R.SavedManifest, was: R.Database, now: R.Database,
                         c: Bytes, x: R.Collection)
    requires w.codec.Sound() && Holds(w, backend.docRefs, backend.objects, m, c, x) && StorableColl(w, c, x)
    requires R.Done(was, now, w, backend, m, c, true)
    ensures R.Look(now, c) == GivenBack(x)
  {
    hide Records;
    hide List;
    hide R.WithDocs;
    hide R.DocsAt;
    hide R.AllStored;
    hide R.Explicit;
    hide Less;
    RecordedRestores(w, backend.docRefs, backend.objects, m.id, c, x.docs);
    assert {} + x.indexes == x.indexes;
  }

  /** What Create recorded can be restored. */
  lemma CoveredCanRestore(w: R.Wire, backend: BoltBackend, m: R.SavedManifest, db: R.Database)
    requires w.codec.Sound() && Storable(w, db) && Covers(w, backend.docRefs, backend.objects, m, db)
    ensures R.CanRestore(w, backend, m, [])
  {
    hide Records;
    hide List;
    hide R.DocsAt;
    hide R.AllStored;
    hide R.Explicit;
    hide R.Compatible;
    hide DistinctDocs;
    hide Less;
    forall c | c in R.Chosen(m, []) ensures R.Whole(w, backend.docRefs, backend.objects, m, c) {
      assert Holds(w, backend.docRefs, backend.objects, m, c, db[c]) && StorableColl(w, c, db[c]);
      RecordedRestores(w, backend.docRefs, backend.objects, m.id, c, db[c].docs);
    }
  }

  lemma RecordedSize(w: R.Wire, b: Bucket, objects: map<Hash, Bytes>, id: Bytes, c: Bytes, state: map<Bytes, Bytes>)
    requires Records(w.codec, b, objects, id, c, state)
    ensures |List(b, id, c)| == |state|
  {
    var refs := List(b, id, c);
    StrictIsSortedDistinct(refs);
    hide Less;
    hide List;
    assert ToMap(refs).Keys == IdSet(refs);
    assert HashState(w.codec, state).Keys == state.Keys;
    hide ToMap;
    hide HashState;
    IdSetSize(refs);
  }

  lemma {:induction false} IdSetSize(refs: seq<DocRef>)
    requires DistinctIds(refs)
    ensures |IdSet(refs)| == |refs|
  {
    if refs != [] {
      var n := |refs| - 1;
      IdSetSize(refs[..n]);
      assert IdSet(refs) == IdSet(refs[..n]) + {refs[n].id} by {
        assert refs == refs[..n] + [refs[n]];
      }
      assert refs[n].id !in IdSet(refs[..n]);
    }
  }

  /** The documents a database has in these collections: the total of the manifest's document counts. */
  function DocTotal(db: R.Database, names: seq<Bytes>): nat
    requires forall c :: c in names ==> c in db
  {
    if names == [] then 0 else DocTotal(db, names[..|names| - 1]) + |db[names[|names| - 1]].docs|
  }

  lemma {:induction false} TotalIsDocTotal(w: R.Wire, b: Bucket, objects: map<Hash, Bytes>, m: R.SavedManifest,
                                           db: R.Database, names: seq<Bytes>)
    requires Covers(w, b, objects, m, db) && forall c :: c in names ==> c in db
    ensures R.TotalDocs(b, m.id, names) == DocTotal(db, names)
  {
    hide Records;
    hide List;
    if names != [] {
      var n := |names| - 1;
      TotalIsDocTotal(w, b, objects, m, db, names[..n]);
      assert Holds(w, b, objects, m, names[n], db[names[n]]);
      RecordedSize(w, b, objects, m.id, names[n], db[names[n]].docs);
    }
  }

  /** Create, then anything at all to the live database, then Restore with Drop: the snapshot's collections are as they
      were when it was taken, no other collection is touched, and every document is counted. */
  method CreateThenRestore(w: R.Wire, backend: BoltBackend, m: R.SavedManifest, target: R.Target, ghost taken: R.Database)
    returns (r: R.RestoreResult, ok: bool)
    requires w.codec.Sound() && Storable(w, taken) && Covers(w, backend.docRefs, backend.objects, m, taken)
    modifies target
    ensures ok ==> forall c :: c in taken ==> R.Look(target.db, c) == GivenBack(taken[c])
    ensures forall c :: c !in taken ==> R.Unchanged(old(target.db), target.db, c)
    ensures ok ==> R.Lists(r.collections, taken.Keys) && r.docsWritten == DocTotal(taken, r.collections)
    ensures target.Calm(old(target.clock)) ==> ok
  {
    hide *;
    CoveredCanRestore(w, backend, m, taken);
    ghost var was, from := target.db, target.clock;
    ghost var names;
    r, ok, names := R.Restore(w, backend, m, target, R.RestoreOptions([], true));
    AccountedIs(w, backend, m, [], target, from, target.clock, was, target.db, ok);
    CoveredNames(w, backend.docRefs, backend.objects, m, taken, names, r.touched);
    if ok {
      Undone(w, backend, m, taken, was, target.db, names, r.collections);
      TotalIsDocTotal(w, backend.docRefs, backend.objects, m, taken, r.collections);
    }
  }

  lemma CoveredNames(w: R.Wire, b: Bucket, objects: map<Hash, Bytes>, m: R.SavedManifest, db: R.Database, names: seq<Bytes>,
                     touched: seq<Bytes>)
    requires Covers(w, b, objects, m, db) && R.Lists(names, m.collections.Keys) && touched <= names
    ensures R.Lists(names, db.Keys) && (forall c :: c in names <==> c in db) && forall c :: c in touched ==> c in db
  {
    hide Holds;
    hide Less;
    assert forall c :: c in touched ==> c in names;
  }

  // ---- RestoreWithSafety ----

  /** Whether a rollback can fail to put collection c right: it was there bare, without documents or indexes of its own, or
      it was not there and the failed restore can leave it behind. The lists and objects are those of the snapshot's store,
      with what the safety snapshot may have added to it. */
  ghost predicate CanMiss(w: R.Wire, b: Bucket, objects: map<Hash, Bytes>, m: R.SavedManifest, collection: Bytes,
                          was: R.Database, c: Bytes)
  {
    && R.Chosen(m, collection) != {}
    && if c in was then GivenBack(was[c]) == None else R.LeftBehind(w, b, objects, m, collection, c)
  }

  /** Whether it came to a rollback, as the fates after the safety snapshot have it. */
  ghost predicate Triggered(w: R.Wire, source: BoltBackend, m: R.SavedManifest, collection: Bytes, target: R.Target,
                            start: nat, rolledBack: bool, mid: R.Database)
    reads source
  {
    && (R.Chosen(m, collection) != {} && target.fate(start).Breaks? && target.Calm(start + 1) ==> rolledBack)
    && forall c, n: nat :: R.BreaksInto(w, source, m, collection, target, start, c, n) && target.Calm(start + n + 1) ==>
         rolledBack && c in mid
  }

  /** RestoreWithSafety. The ghost results are the target as the restore left it, before any rollback, the number of
      operations until then, and how far the rollback got. */
  method RestoreWithSafety(w: R.Wire, source: BoltBackend, m: R.SavedManifest, target: R.Target, opts: R.RestoreOptions,
                           store: BoltBackend, safetyId: Bytes, idDef: Bytes, runSize: int)
    returns (r: R.RestoreResult, ok: bool, rolledBack: bool, ghost mid: R.Database, ghost since: nat, ghost undo: R.RestoreResult)
    requires w.codec.Sound() && w.codec.Filed(store.objects) && Storable(w, target.db)
    requires NulFree(safetyId) && forall c :: Unwritten(store.docRefs, safetyId, c)
    modifies target, store
    ensures ok ==> target.db == mid && R.Lists(r.collections, R.Chosen(m, opts.collection))
    ensures ok ==> forall c :: c in r.collections ==> R.Done(old(target.db), target.db, w, source, m, c, opts.drop)
    ensures ok ==> r.docsWritten == R.TotalDocs(source.docRefs, m.id, r.collections)
    ensures opts.drop ==> forall c :: c !in r.touched ==> R.Unchanged(old(target.db), mid, c)
    ensures opts.collection != [] ==> forall c :: c != opts.collection ==> R.Unchanged(old(target.db), mid, c)
    ensures opts.collection != [] && ok ==> r.collections == [opts.collection]
    ensures opts.collection == [] && ok ==> R.Lists(r.collections, m.collections.Keys)
    ensures opts.drop && !ok && r.touched == [] ==> target.db == old(target.db)
    ensures !opts.drop ==> target.db == mid && r.touched == [] && forall c :: R.Preserved(old(target.db), mid, c)
    ensures rolledBack ==> opts.drop && !ok && r.touched != []
    ensures rolledBack ==> RolledBack(old(target.db), mid, target.db)
    ensures undo.collections <= undo.touched && |undo.touched| <= |undo.collections| + 1
    ensures forall c :: c in undo.collections ==> c in old(target.db) && R.Look(target.db, c) == GivenBack(old(target.db)[c])
    ensures forall c :: c !in undo.touched ==> R.Unchanged(mid, target.db, c)
    ensures opts.drop && !ok && r.touched != [] && target.Calm(since) ==> rolledBack
    ensures opts.drop && target.Calm(old(target.clock)) && R.CanRestore(w, source, m, opts.collection) ==> ok
    // What the rollback is good for: it puts every collection right but those it can miss.
    ensures rolledBack ==> forall c :: !CanMiss(w, source.docRefs, source.objects, m, opts.collection, old(target.db), c) ==>
      R.Unchanged(old(target.db), target.db, c)
    ensures rolledBack && R.Chosen(m, opts.collection) <= old(target.db).Keys && NoneBare(old(target.db)) ==> target.db == old(target.db)
    // When it comes to a rollback: the first drop fails, or an operation breaks as it is filling a collection.
    ensures opts.drop && target.FineIn(old(target.clock), old(target.clock) + |old(target.db)|) ==>
      Triggered(w, source, m, opts.collection, target, old(target.clock) + |old(target.db)|, rolledBack, mid)
    ensures OthersKept(old(store.docRefs), old(store.objects), store.docRefs, store.objects, safetyId)
  {
    hide *;
    r, ok, rolledBack, mid, since := R.RestoreResult([], [], 0), false, false, target.db, target.clock;
    undo := r;
    ghost var was, from, start := target.db, target.clock, target.clock + |target.db|;
    NothingChanged(was);
    OthersKeptSelf(store.docRefs, store.objects, safetyId);
    CalmEnough(target, from, start);
    var safety := R.SavedManifest(safetyId, map[]);
    if opts.drop {
      var taken;
      safety, taken := Create(w, store, safetyId, target, idDef, runSize);
      if !taken {
        return;
      }
    }
    ghost var names, begun := [], target.clock;
    r, ok, names := R.Restore(w, source, m, target, opts);
    mid, since := target.db, target.clock;
    R.ListsNothing(names, R.Chosen(m, opts.collection));
    if opts.drop {
      AccountedIs(w, source, m, opts.collection, target, begun, since, was, mid, ok);
    }
    if ok || !opts.drop || |r.touched| == 0 {
      NothingChanged(mid);
      if opts.drop {
        TriggeredIs(w, source, m, opts.collection, target, begun, since, was, mid, ok, rolledBack);
        if !ok {
          AllUnchanged(was, mid);
        }
      }
      return;
    }
    CoveredCanRestore(w, store, safety, was);
    var rollback, undone;
    rollback, undone, names := R.Restore(w, store, safety, target, R.RestoreOptions([], true));
    AccountedIs(w, store, safety, [], target, since, target.clock, mid, target.db, undone);
    rolledBack, undo := undone, rollback;
    Undone(w, store, safety, was, mid, target.db, names, undo.collections);
    TriggeredIs(w, source, m, opts.collection, target, begun, since, was, mid, ok, rolledBack);
    if rolledBack {
      RollbackDone(was, mid, target.db, names);
      RollbackPutsRight(w, source.docRefs, source.objects, m, opts.collection, was, mid, target.db);
    }
  }

  lemma CalmEnough(target: R.Target, from: nat, start: nat)
    ensures target.Calm(from) && from <= start ==> target.FineIn(from, start) && target.Calm(start)
  {
  }

  lemma AccountedIs(w: R.Wire, backend: BoltBackend, m: R.SavedManifest, collection: Bytes, target: R.Target, from: nat,
                    now: nat, was: R.Database, db: R.Database, ok: bool)
    requires R.Accounted(w, backend, m, collection, target, from, now, was, db, ok)
    ensures forall c :: c in db && c !in was ==> R.LeftBehind(w, backend.docRefs, backend.objects, m, collection, c)
    ensures target.Calm(from) && R.CanRestore(w, backend, m, collection) ==> ok
  {
  }

  lemma TriggeredIs(w: R.Wire, source: BoltBackend, m: R.SavedManifest, collection: Bytes, target: R.Target, start: nat,
                    since: nat, was: R.Database, mid: R.Database, ok: bool, rolledBack: bool)
    requires R.Accounted(w, source, m, collection, target, start, since, was, mid, ok)
    requires !ok && R.Chosen(m, collection) != {} && target.Calm(since) ==> rolledBack
    ensures Triggered(w, source, m, collection, target, start, rolledBack, mid)
  {
    forall c, n: nat | R.BreaksInto(w, source, m, collection, target, start, c, n) ensures R.Chosen(m, collection) != {} {
      R.BreakNeeds(w, source, m, collection, target, start, c, n);
    }
    hide R.BreaksInto;
  }

  lemma BreakTriggers(w: R.Wire, source: BoltBackend, m: R.SavedManifest, collection: Bytes, target: R.Target, start: nat,
                      rolledBack: bool, mid: R.Database, c: Bytes, n: nat)
    requires Triggered(w, source, m, collection, target, start, rolledBack, mid)
    requires R.BreaksInto(w, source, m, collection, target, start, c, n) && target.Calm(start + n + 1)
    ensures rolledBack && c in mid
  {
  }

  lemma FirstDropTriggers(w: R.Wire, source: BoltBackend, m: R.SavedManifest, collection: Bytes, target: R.Target, start: nat,
                          rolledBack: bool, mid: R.Database)
    requires Triggered(w, source, m, collection, target, start, rolledBack, mid)
    requires R.Chosen(m, collection) != {} && target.BreaksAt(start, 0) && target.Calm(start + 1)
    ensures rolledBack
  {
  }

  ghost predicate NoneBare(db: R.Database)
  {
    forall c :: c in db ==> db[c].docs != map[] || db[c].indexes != {}
  }

  lemma RollbackPutsRight(w: R.Wire, b: Bucket, objects: map<Hash, Bytes>, m: R.SavedManifest, collection: Bytes,
                          was: R.Database, mid: R.Database, now: R.Database)
    requires RolledBack(was, mid, now) && R.Chosen(m, collection) != {}
    requires forall c :: c in mid && c !in was ==> R.LeftBehind(w, b, objects, m, collection, c)
    ensures forall c :: !CanMiss(w, b, objects, m, collection, was, c) ==> R.Unchanged(was, now, c)
    ensures R.Chosen(m, collection) <= was.Keys && NoneBare(was) ==> now == was
  {
    hide R.LeavesTrace;
    hide R.Whole;
    hide Less;
    if R.Chosen(m, collection) <= was.Keys && NoneBare(was) {
      RollbackIsComplete(was, mid, now);
    }
  }

  /** After a successful rollback: every collection there was before is back (a bare empty one aside), and every
      collection there was not is as the failed restore left it. */
  ghost predicate RolledBack(was: R.Database, mid: R.Database, now: R.Database)
  {
    && (forall c :: c in was ==> R.Look(now, c) == GivenBack(was[c]))
    && (forall c :: c !in was ==> R.Unchanged(mid, now, c))
  }

  lemma NothingChanged(db: R.Database)
    ensures forall c :: R.Unchanged(db, db, c) && R.Preserved(db, db, c)
  {
  }

  lemma AllUnchanged(was: R.Database, now: R.Database)
    requires forall c :: R.Unchanged(was, now, c)
    ensures was == now
  {
    forall c ensures c in was <==> c in now
             ensures c in was ==> was[c] == now[c] {
      assert R.Unchanged(was, now, c);
    }
  }

  lemma RollbackDone(was: R.Database, mid: R.Database, now: R.Database, names: seq<Bytes>)
    requires R.Lists(names, was.Keys)
    requires forall c :: c in names ==> c in was && R.Look(now, c) == GivenBack(was[c])
    requires forall c :: c !in names ==> R.Unchanged(mid, now, c)
    ensures RolledBack(was, mid, now)
  {
    hide R.Unchanged;
    hide Less;
  }

  /** What a rollback has got to is back, whether it then goes on to the end or not. */
  lemma Undone(w: R.Wire, store: BoltBackend, safety: R.SavedManifest, was: R.Database, mid: R.Database,
               now: R.Database, names: seq<Bytes>, done: seq<Bytes>)
    requires w.codec.Sound() && Storable(w, was) && Covers(w, store.docRefs, store.objects, safety, was)
    requires R.Lists(names, R.Chosen(safety, [])) && done <= names
    requires forall c :: c in done ==> R.Done(mid, now, w, store, safety, c, true)
    ensures forall c :: c in done ==> c in was && R.Look(now, c) == GivenBack(was[c])
    ensures R.Lists(names, was.Keys)
  {
    hide StorableColl;
    hide Holds;
    hide R.Done;
    hide Less;
    hide List;
    assert R.Chosen(safety, []) == was.Keys;
    forall c | c in done ensures c in was && R.Look(now, c) == GivenBack(was[c]) {
      assert c in names;
      RestoreGivesBack(w, store, safety, mid, now, c, was[c]);
    }
  }

  /** Every collection the safety snapshot recorded has exactly its documents and indexes again. */
  lemma RollbackRestoresDocs(was: R.Database, mid: R.Database, now: R.Database, c: Bytes)
    requires RolledBack(was, mid, now) && c in was
    ensures R.DocsOf(R.Look(now, c)) == was[c].docs && R.IndexesOf(R.Look(now, c)) == was[c].indexes
  {
  }

  /** A rollback gives back the whole database exactly if nothing bare was there and the failed restore made nothing new. */
  lemma RollbackIsComplete(was: R.Database, mid: R.Database, now: R.Database)
    requires RolledBack(was, mid, now)
    ensures now == was <==> (forall c :: c in was ==> was[c].docs != map[] || was[c].indexes != {}) && mid.Keys <= was.Keys
  {
  }

  // ---- Where the rollback falls short ----

  /** For a snapshot that is stored whole, what a rollback can miss is simply the bare collections that were there, and the
      snapshot's collections that were not there and have a document or an index. */
  lemma MissedOfWhole(w: R.Wire, source: BoltBackend, m: R.SavedManifest, collection: Bytes, was: R.Database, c: Bytes)
    requires R.CanRestore(w, source, m, collection) && R.Chosen(m, collection) != {}
    ensures CanMiss(w, source.docRefs, source.objects, m, collection, was, c) <==>
      if c in was then was[c] == R.Collection(map[], {})
      else c in R.Chosen(m, collection) && (List(source.docRefs, m.id, c) != [] || R.Explicit(m.collections[c]) != {})
  {
    hide List;
    hide Less;
    hide R.Explicit;
    hide R.Compatible;
    hide DistinctDocs;
  }

  /** The stored lists of this snapshot are the same and no object is gone. */
  ghost predicate SameLists(b: Bucket, objects: map<Hash, Bytes>, b': Bucket, objects': map<Hash, Bytes>, m: R.SavedManifest)
  {
    && (forall k :: k in m.collections ==> List(b', m.id, k) == List(b, m.id, k))
    && (forall h :: h in objects ==> h in objects' && objects'[h] == objects[h])
  }

  lemma OtherIsSame(b: Bucket, objects: map<Hash, Bytes>, b': Bucket, objects': map<Hash, Bytes>, m: R.SavedManifest, id: Bytes)
    requires OthersKept(b, objects, b', objects', id)
    requires m.id != id && NulFree(m.id) && forall k :: k in m.collections ==> NulFree(k)
    ensures SameLists(b, objects, b', objects', m)
  {
  }

  lemma WholeLasts(w: R.Wire, b: Bucket, objects: map<Hash, Bytes>, b': Bucket, objects': map<Hash, Bytes>, m: R.SavedManifest, c: Bytes)
    requires SameLists(b, objects, b', objects', m) && R.Whole(w, b, objects, m, c)
    ensures R.Whole(w, b', objects', m, c)
  {
    hide R.Compatible;
    hide R.Explicit;
    hide DistinctDocs;
    hide List;
    var refs := List(b, m.id, c);
    assert forall i :: 0 <= i < |refs| ==> refs[i] in refs;
    assert R.DocsAt(w, objects', refs) == R.DocsAt(w, objects, refs);
  }

  /** What could be left behind before the safety snapshot was taken can be left behind after it. */
  lemma LeftBehindLasts(w: R.Wire, b: Bucket, objects: map<Hash, Bytes>, b': Bucket, objects': map<Hash, Bytes>,
                        m: R.SavedManifest, collection: Bytes, c: Bytes)
    requires SameLists(b, objects, b', objects', m) && R.LeftBehind(w, b, objects, m, collection, c)
    ensures R.LeftBehind(w, b', objects', m, collection, c)
  {
    hide List;
    hide Less;
    hide R.Explicit;
    hide R.FirstBatch;
    forall k | k in R.Chosen(m, collection) && Less(k, c) ensures R.Whole(w, b', objects', m, k) {
      WholeLasts(w, b, objects, b', objects', m, k);
    }
    hide R.Whole;
  }

  lemma {:induction false} SameOps(b: Bucket, objects: map<Hash, Bytes>, b': Bucket, objects': map<Hash, Bytes>,
                                   m: R.SavedManifest, names: seq<Bytes>)
    requires SameLists(b, objects, b', objects', m)
    ensures R.OpsFor(b', m, names) == R.OpsFor(b, m, names)
  {
    hide List;
    hide R.OneOps;
    if names != [] {
      SameOps(b, objects, b', objects', m, names[..|names| - 1]);
    }
  }

  lemma TouchLasts(b: Bucket, objects: map<Hash, Bytes>, b': Bucket, objects': map<Hash, Bytes>, m: R.SavedManifest,
                   collection: Bytes, names: seq<Bytes>, i: nat, n: nat)
    requires SameLists(b, objects, b', objects', m) && R.Lists(names, R.Chosen(m, collection)) && i < |names|
    requires n == R.OpsFor(b, m, names[..i]) + R.FirstPut(List(b, m.id, names[i])) + 1
    ensures R.FirstTouch(b', m, collection, names[i], n)
  {
    hide List;
    hide Less;
    hide R.FirstPut;
    SameOps(b, objects, b', objects', m, names[..i]);
    assert names[i] in names;
    assert R.TouchedAt(b', m, names, i, names[i], n);
  }

  method PlaceOf(names: seq<Bytes>, c: Bytes) returns (i: nat)
    requires c in names
    ensures i < |names| && names[i] == c
  {
    i := 0;
    while names[i] != c
      invariant i < |names| && c in names[i..]
      decreases |names| - i
    {
      i := i + 1;
    }
  }

  /** How many operations of an undisturbed drop restore come before the first that puts something into c. */
  method OpsBefore(source: BoltBackend, m: R.SavedManifest, collection: Bytes, c: Bytes)
    returns (n: nat, ghost sorted: seq<Bytes>, ghost i: nat)
    requires c in R.Chosen(m, collection)
    ensures R.Lists(sorted, R.Chosen(m, collection)) && i < |sorted| && sorted[i] == c
    ensures n == R.OpsFor(source.docRefs, m, sorted[..i]) + R.FirstPut(List(source.docRefs, m.id, c)) + 1
  {
    hide *;
    var names := R.SortedNames(R.Chosen(m, collection));
    ListsIt(names, R.Chosen(m, collection), c);
    var place := PlaceOf(names, c);
    sorted, i := names, place;
    n := R.OpsFor(source.docRefs, m, names[..place]) + R.FirstPut(List(source.docRefs, m.id, c)) + 1;
  }

  lemma ListsIt(sorted: seq<Bytes>, names: set<Bytes>, c: Bytes)
    requires R.Lists(sorted, names) && c in names
    ensures c in sorted
  {
  }

  /** For every collection a rollback can miss there is a fate of the operations under which it does: the restore fails, the
      rollback succeeds, and the collection is not what it was. */
  method RollbackMisses(w: R.Wire, source: BoltBackend, m: R.SavedManifest, db: R.Database, collection: Bytes, c: Bytes,
                        store: BoltBackend, safetyId: Bytes, idDef: Bytes, runSize: int)
    returns (target: R.Target, rolledBack: bool)
    requires w.codec.Sound() && w.codec.Filed(store.objects) && Storable(w, db)
    requires NulFree(safetyId) && forall k :: Unwritten(store.docRefs, safetyId, k)
    requires source == store ==> m.id != safetyId && NulFree(m.id) && forall k :: k in m.collections ==> NulFree(k)
    requires CanMiss(w, source.docRefs, source.objects, m, collection, db, c)
    modifies store
    ensures fresh(target) && rolledBack && !R.Unchanged(db, target.db, c)
  {
    hide *;
    ghost var b, objects := source.docRefs, source.objects;
    MissIs(w, b, objects, m, collection, db, c);
    var n := 0;
    ghost var sorted, i := [], 0;
    if c !in db {
      n, sorted, i := OpsBefore(source, m, collection, c);
    }
    var at := |db| + n;
    target := new R.Target(db, (k: nat) => if k == at then R.Breaks(1) else R.Fine);
    OneBreak(target, |db|, n);
    var r, ok;
    ghost var mid, since, undo;
    r, ok, rolledBack, mid, since, undo := RestoreWithSafety(w, source, m, target, R.RestoreOptions(collection, true), store,
                                                             safetyId, idDef, runSize);
    if c !in db {
      StillSame(b, objects, source.docRefs, source.objects, m, safetyId, source == store);
      WillBreak(w, b, objects, source, m, collection, sorted, i, target, |db|, n);
      BreakTriggers(w, source, m, collection, target, |db|, rolledBack, mid, c, n);
    } else {
      FirstDropTriggers(w, source, m, collection, target, |db|, rolledBack, mid);
    }
    Missed(db, mid, target.db, c);
  }

  lemma MissIs(w: R.Wire, b: Bucket, objects: map<Hash, Bytes>, m: R.SavedManifest, collection: Bytes, db: R.Database, c: Bytes)
    requires CanMiss(w, b, objects, m, collection, db, c)
    ensures R.Chosen(m, collection) != {}
    ensures if c in db then GivenBack(db[c]) == None else R.LeftBehind(w, b, objects, m, collection, c) && c in R.Chosen(m, collection)
  {
  }

  lemma OneBreak(target: R.Target, start: nat, n: nat)
    requires target.clock == 0 && target.fate == ((k: nat) => if k == start + n then R.Breaks(1) else R.Fine)
    ensures target.FineIn(0, start) && target.BreaksAt(start, n) && target.Calm(start + n + 1)
  {
  }

  lemma StillSame(b: Bucket, objects: map<Hash, Bytes>, b': Bucket, objects': map<Hash, Bytes>, m: R.SavedManifest,
                  id: Bytes, shared: bool)
    requires !shared ==> b' == b && objects' == objects
    requires shared ==> OthersKept(b, objects, b', objects', id)
    requires shared ==> m.id != id && NulFree(m.id) && forall k :: k in m.collections ==> NulFree(k)
    ensures SameLists(b, objects, b', objects', m)
  {
    hide List;
    if shared {
      OtherIsSame(b, objects, b', objects', m, id);
    }
  }

  lemma WillBreak(w: R.Wire, b: Bucket, objects: map<Hash, Bytes>, source: BoltBackend, m: R.SavedManifest, collection: Bytes,
                  sorted: seq<Bytes>, i: nat, target: R.Target, from: nat, n: nat)
    requires SameLists(b, objects, source.docRefs, source.objects, m)
    requires R.Lists(sorted, R.Chosen(m, collection)) && i < |sorted| && R.LeftBehind(w, b, objects, m, collection, sorted[i])
    requires n == R.OpsFor(b, m, sorted[..i]) + R.FirstPut(List(b, m.id, sorted[i])) + 1 && target.BreaksAt(from, n)
    ensures R.BreaksInto(w, source, m, collection, target, from, sorted[i], n)
  {
    LeftBehindLasts(w, b, objects, source.docRefs, source.objects, m, collection, sorted[i]);
    TouchLasts(b, objects, source.docRefs, source.objects, m, collection, sorted, i, n);
    hide SameLists;
    hide R.LeftBehind;
    hide R.FirstTouch;
    hide R.Lists;
    hide R.Chosen;
    hide R.OpsFor;
    hide R.FirstPut;
    hide List;
  }

  lemma Missed(was: R.Database, mid: R.Database, now: R.Database, c: Bytes)
    requires RolledBack(was, mid, now)
    requires if c in was then GivenBack(was[c]) == None else c in mid
    ensures !R.Unchanged(was, now, c)
  {
  }
}
