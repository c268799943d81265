/** Restoring a snapshot into a live database that may fail at any operation. */
module Restore {
  import opened ByteStrings
  import opened DocRefs
  import opened BoltStore
  import opened Options
  import opened Pipeline

  type Coll = Bytes

  /** An index definition; its keys and options are carried over unread. */
  datatype IndexSpec = IndexSpec(name: string, def: Bytes)

  const ID_INDEX: string := "_id_"

  /** A live collection: documents by _id, and its indexes besides the one on _id. */
  datatype Collection = Collection(docs: map<Bytes, Bytes>, indexes: set<IndexSpec>)

  type Database = map<Coll, Collection>

  function Look(db: Database, c: Coll): Option<Collection>
  {
    if c in db then Some(db[c]) else None
  }

  function Put(db: Database, c: Coll, x: Option<Collection>): Database
  {
    match x case None => db - {c} case Some(v) => db[c := v]
  }

  function DocsOf(x: Option<Collection>): map<Bytes, Bytes>
  {
    match x case None => map[] case Some(v) => v.docs
  }

  function IndexesOf(x: Option<Collection>): set<IndexSpec>
  {
    match x case None => {} case Some(v) => v.indexes
  }

  /** One more document; the first one creates the collection. */
  function WithDoc(x: Option<Collection>, d: Doc): Option<Collection>
  {
    Some(Collection(DocsOf(x)[d.id := d.content], IndexesOf(x)))
  }

  function WithDocs(x: Option<Collection>, docs: seq<Doc>): Option<Collection>
  {
    if docs == [] then x else WithDoc(WithDocs(x, docs[..|docs| - 1]), docs[|docs| - 1])
  }

  function WithIndexes(x: Option<Collection>, indexes: set<IndexSpec>): Option<Collection>
  {
    if indexes == {} then x else Some(Collection(DocsOf(x), IndexesOf(x) + indexes))
  }

  /** What recreateIndexes creates: all but the _id index. */
  function Explicit(specs: seq<IndexSpec>): set<IndexSpec>
  {
    set s | s in specs && s.name != ID_INDEX
  }

  /** What happens to an operation: it succeeds, or it fails after doing the first `part` of its work. */
  datatype Fate = Fine | Breaks(part: nat)

  /** The target server. */
  class Target {
    var db: Database
    var clock: nat
    const fate: nat -> Fate

    constructor (db: Database, fate: nat -> Fate)
      ensures this.db == db && this.fate == fate && clock == 0
    {
      this.db, this.fate, clock := db, fate, 0;
    }

    /** From this operation on nothing fails by itself. */
    ghost predicate Calm(from: nat)
    {
      forall k: nat :: from <= k ==> fate(k).Fine?
    }

    /** None of these operations fails by itself. */
    ghost predicate FineIn(from: nat, to: nat)
    {
      forall k: nat :: from <= k < to ==> fate(k).Fine?
    }

    /** Counting from `from`, operation n is the first to fail, and it fails half-way. */
    ghost predicate BreaksAt(from: nat, n: nat)
    {
      FineIn(from, from + n) && fate(from + n).Breaks? && fate(from + n).part > 0
    }

    /** Any read on the way; it may fail. */
    method Read() returns (ok: bool)
      modifies `clock
      ensures clock == old(clock) + 1 && ok == fate(old(clock)).Fine?
    {
      ok := fate(clock).Fine?;
      clock := clock + 1;
    }

    /** Collection.Drop. */
    method Drop(c: Coll) returns (ok: bool)
      modifies this
      ensures db == Put(old(db), c, None) || (!ok && db == old(db))
      ensures clock == old(clock) + 1 && ok == fate(old(clock)).Fine?
    {
      var f := fate(clock);
      clock := clock + 1;
      if f.Fine? || f.part > 0 {
        db := db - {c};
      }
      ok := f.Fine?;
    }

    /** Collection.InsertMany, ordered: it stops at the first document it cannot insert and keeps those before. */
    method InsertMany(c: Coll, docs: seq<Doc>) returns (ok: bool, ghost n: nat)
      modifies this
      ensures n <= |docs| && db == Put(old(db), c, WithDocs(Look(old(db), c), docs[..n]))
      ensures Absent(Look(old(db), c), docs[..n])
      ensures ok ==> n == |docs|
      ensures clock == old(clock) + 1 && (ok ==> fate(old(clock)).Fine?)
      ensures fate(old(clock)).Fine? && Absent(Look(old(db), c), docs) ==> ok
      ensures fate(old(clock)).Breaks? && fate(old(clock)).part > 0 && docs != [] && docs[0].id !in DocsOf(Look(old(db), c)) ==> n > 0
    {
      var f := fate(clock);
      clock := clock + 1;
      n := 0;
      assert Put(db, c, Look(db, c)) == db;
      for i := 0 to |docs|
        invariant clock == old(clock) + 1 && f == fate(old(clock))
        invariant n == i && db == Put(old(db), c, WithDocs(Look(old(db), c), docs[..i]))
        invariant Absent(Look(old(db), c), docs[..i])
        invariant Look(db, c) == WithDocs(Look(old(db), c), docs[..i])
      {
        if f.Breaks? && f.part <= i {
          return false, n;
        }
        if c in db && docs[i].id in db[c].docs {
          AlreadyThere(Look(old(db), c), docs, i);
          return false, n;
        }
        assert docs[..i + 1][..i] == docs[..i];
        AbsentMore(Look(old(db), c), docs[..i], docs[i]);
        assert docs[..i + 1] == docs[..i] + [docs[i]];
        db := db[c := WithDoc(Look(db, c), docs[i]).value];
        n := n + 1;
      }
      assert docs[..|docs|] == docs;
      ok := f.Fine?;
    }

    /** Indexes().CreateOne; another index of that name is a conflict. */
    method CreateIndex(c: Coll, spec: IndexSpec) returns (ok: bool)
      modifies this
      ensures db == Put(old(db), c, WithIndexes(Look(old(db), c), {spec})) || (!ok && db == old(db))
      ensures clock == old(clock) + 1 && (ok ==> fate(old(clock)).Fine?)
      ensures ok <==> fate(old(clock)).Fine? && !Conflicts(IndexesOf(Look(old(db), c)), spec)
      ensures fate(old(clock)).Breaks? && fate(old(clock)).part > 0 && IndexesOf(Look(old(db), c)) == {} ==>
        db == Put(old(db), c, WithIndexes(Look(old(db), c), {spec}))
    {
      var f := fate(clock);
      clock := clock + 1;
      if Conflicts(IndexesOf(Look(db, c)), spec) {
        return false;
      }
      if f.Fine? || f.part > 0 {
        db := db[c := WithIndexes(Look(db, c), {spec}).value];
      }
      ok := f.Fine?;
    }
  }

  /** None of the documents is there already, and no two share an ID. */
  ghost predicate Absent(x: Option<Collection>, docs: seq<Doc>)
  {
    DistinctDocs(docs) && forall d :: d in docs ==> d.id !in DocsOf(x)
  }

  /** Another index has this one's name. */
  predicate Conflicts(indexes: set<IndexSpec>, spec: IndexSpec)
  {
    exists s :: s in indexes && s.name == spec.name && s != spec
  }

  /** No two indexes share a name. */
  ghost predicate Compatible(indexes: set<IndexSpec>)
  {
    forall s, t :: s in indexes && t in indexes && s.name == t.name ==> s == t
  }

  /** An ordered insert only stops at a document that is there already or comes twice. */
  lemma AlreadyThere(x: Option<Collection>, docs: seq<Doc>, i: nat)
    requires i < |docs| && docs[i].id in DocsOf(WithDocs(x, docs[..i]))
    ensures !Absent(x, docs)
  {
    WithDocsHas(x, docs[..i]);
    if docs[i].id !in DocsOf(x) {
      var d :| d in docs[..i] && d.id == docs[i].id;
      var j :| 0 <= j < i && docs[j] == d;
    } else {
      assert docs[i] in docs;
    }
  }

  lemma {:induction false} WithDocsHas(x: Option<Collection>, docs: seq<Doc>)
    ensures DocsOf(WithDocs(x, docs)).Keys == DocsOf(x).Keys + set d | d in docs :: d.id
    ensures IndexesOf(WithDocs(x, docs)) == IndexesOf(x)
    ensures DistinctDocs(docs) ==> forall d :: d in docs ==> DocsOf(WithDocs(x, docs))[d.id] == d.content
    ensures forall id :: id in DocsOf(x) && (forall d :: d in docs ==> d.id != id) ==> DocsOf(WithDocs(x, docs))[id] == DocsOf(x)[id]
  {
    if docs != [] {
      var n := |docs| - 1;
      WithDocsHas(x, docs[..n]);
      LastDoc(docs);
      assert DocsOf(WithDocs(x, docs)) == DocsOf(WithDocs(x, docs[..n]))[docs[n].id := docs[n].content];
      assert IndexesOf(WithDocs(x, docs)) == IndexesOf(WithDocs(x, docs[..n]));
      hide *;
    }
  }

  lemma LastDoc(docs: seq<Doc>)
    requires docs != []
    ensures var (n, last) := (|docs| - 1, docs[|docs| - 1]);
      && (forall d :: d in docs <==> d in docs[..n] || d == last)
      && (DistinctDocs(docs) ==> DistinctDocs(docs[..n]) && forall d :: d in docs[..n] ==> d.id != last.id)
  {
    var n := |docs| - 1;
    assert docs == docs[..n] + [docs[n]];
    if DistinctDocs(docs) {
      forall d | d in docs[..n] ensures d.id != docs[n].id {
        var j :| 0 <= j < n && docs[j] == d;
      }
    }
  }

  lemma AbsentMore(x: Option<Collection>, docs: seq<Doc>, d: Doc)
    requires Absent(x, docs) && d.id !in DocsOf(WithDocs(x, docs))
    ensures Absent(x, docs + [d])
  {
    WithDocsHas(x, docs);
    forall i | 0 <= i < |docs| ensures docs[i].id != d.id {
      assert docs[i] in docs;
    }
  }

  lemma {:induction false} WithDocsConcat(x: Option<Collection>, a: seq<Doc>, b: seq<Doc>)
    ensures WithDocs(x, a + b) == WithDocs(WithDocs(x, a), b)
    decreases |b|
  {
    if b == [] {
      assert a + b == a;
    } else {
      var n := |b| - 1;
      assert (a + b)[..|a + b| - 1] == a + b[..n];
      WithDocsConcat(x, a, b[..n]);
    }
  }

  /** Inserting documents that were not there loses nothing and overwrites nothing. */
  lemma NothingLost(x: Option<Collection>, docs: seq<Doc>)
    requires Absent(x, docs)
    ensures forall id :: id in DocsOf(x) ==> id in DocsOf(WithDocs(x, docs)) && DocsOf(WithDocs(x, docs))[id] == DocsOf(x)[id]
  {
  }

  lemma AbsentConcat(x: Option<Collection>, a: seq<Doc>, b: seq<Doc>)
    requires Absent(x, a) && Absent(WithDocs(x, a), b)
    ensures Absent(x, a + b)
  {
    WithDocsHas(x, a);
    forall i, j | 0 <= i < |a| && 0 <= j < |b| ensures a[i].id != b[j].id {
      assert a[i] in a && b[j] in b;
    }
  }

  lemma AbsentRest(x: Option<Collection>, a: seq<Doc>, b: seq<Doc>, c: seq<Doc>)
    requires Absent(x, a + b + c)
    ensures Absent(WithDocs(x, a), b)
  {
    WithDocsHas(x, a);
    DistinctParts(a, b, c);
    assert forall d :: d in b ==> d in a + b + c;
    hide DistinctDocs;
    hide DocsOf;
    hide WithDocs;
  }

  lemma DistinctParts(a: seq<Doc>, b: seq<Doc>, c: seq<Doc>)
    requires DistinctDocs(a + b + c)
    ensures DistinctDocs(b) && forall d, e :: d in a && e in b ==> d.id != e.id
  {
    var all := a + b + c;
    assert forall i :: 0 <= i < |b| ==> all[|a| + i] == b[i];
    forall d, e | d in a && e in b ensures d.id != e.id {
      var i :| 0 <= i < |a| && a[i] == d;
      var j :| 0 <= j < |b| && b[j] == e;
      assert all[i] == d && all[|a| + j] == e;
    }
  }

  // ---- Reading a stored list back ----

  /** The codec, and the _id of a document given its bytes. */
  datatype Wire = Wire(codec: Codec, idOf: Bytes -> Bytes)

  predicate AllStored(objects: map<Hash, Bytes>, refs: seq<DocRef>)
  {
    forall r :: r in refs ==> r.hash in objects
  }

  /** The document a ref leads to. */
  function DocAt(w: Wire, objects: map<Hash, Bytes>, ref: DocRef): Doc
  {
    var data := if ref.hash in objects then w.codec.decompress(objects[ref.hash]) else [];
    Doc(w.idOf(data), data)
  }

  function DocsAt(w: Wire, objects: map<Hash, Bytes>, refs: seq<DocRef>): (docs: seq<Doc>)
    ensures |docs| == |refs|
  {
    seq(|refs|, i requires 0 <= i < |refs| => DocAt(w, objects, refs[i]))
  }

  lemma DocsAtConcat(w: Wire, objects: map<Hash, Bytes>, a: seq<DocRef>, b: seq<DocRef>)
    ensures DocsAt(w, objects, a + b) == DocsAt(w, objects, a) + DocsAt(w, objects, b)
  {
  }

  lemma DocsAtPrefix(w: Wire, objects: map<Hash, Bytes>, refs: seq<DocRef>, n: nat)
    requires n <= |refs|
    ensures DocsAt(w, objects, refs)[..n] == DocsAt(w, objects, refs[..n])
  {
  }

  const INSERT_BATCH: nat := 500

  /** Nothing about the list itself keeps it from going into the collection. */
  ghost predicate CanLoad(db: Database, c: Coll, w: Wire, objects: map<Hash, Bytes>, refs: seq<DocRef>)
  {
    AllStored(objects, refs) && Absent(Look(db, c), DocsAt(w, objects, refs))
  }

  /** The first documents of the list have gone into collection c, and nothing else has happened. */
  ghost predicate Loaded(was: Database, now: Database, c: Coll, w: Wire, objects: map<Hash, Bytes>, refs: seq<DocRef>)
  {
    && AllStored(objects, refs)
    && now == Put(was, c, WithDocs(Look(was, c), DocsAt(w, objects, refs)))
    && Absent(Look(was, c), DocsAt(w, objects, refs))
  }

  lemma LoadedNothing(was: Database, c: Coll, w: Wire, objects: map<Hash, Bytes>, refs: seq<DocRef>)
    ensures Loaded(was, was, c, w, objects, refs[..0]) && refs[0..] == refs
  {
  }

  lemma LoadedMore(was: Database, mid: Database, now: Database, c: Coll, w: Wire, objects: map<Hash, Bytes>,
                   a: seq<DocRef>, b: seq<DocRef>, n: nat)
    requires Loaded(was, mid, c, w, objects, a) && AllStored(objects, b) && n <= |b|
    requires now == Put(mid, c, WithDocs(Look(mid, c), DocsAt(w, objects, b)[..n]))
    requires Absent(Look(mid, c), DocsAt(w, objects, b)[..n])
    ensures Loaded(was, now, c, w, objects, a + b[..n])
  {
    var x, da, db := Look(was, c), DocsAt(w, objects, a), DocsAt(w, objects, b[..n]);
    DocsAtPrefix(w, objects, b, n);
    DocsAtConcat(w, objects, a, b[..n]);
    WithDocsConcat(x, da, db);
    LookPut(was, c, WithDocs(x, da));
    AbsentConcat(x, da, db);
    hide WithDocs;
    hide Absent;
    hide DocsAt;
    PutTwice(was, c, WithDocs(x, da), WithDocs(x, da + db));
  }

  lemma LookPut(db: Database, c: Coll, x: Option<Collection>)
    ensures Look(Put(db, c, x), c) == x
    ensures forall k :: k != c ==> Look(Put(db, c, x), k) == Look(db, k)
  {
  }

  lemma PutTwice(db: Database, c: Coll, x: Option<Collection>, y: Option<Collection>)
    ensures Put(Put(db, c, x), c, y) == Put(db, c, y)
  {
  }

  // ---- Counting operations ----

  /** What insertDocs takes for n documents: two reads each, a last read that finds the end, and an insert per batch. */
  function LoadOps(n: nat): nat
  {
    2 * n + 1 + n / INSERT_BATCH + (if n % INSERT_BATCH == 0 then 0 else 1)
  }

  /** How many of these operations come before the first insert. */
  function FirstInsert(n: nat): nat
  {
    if n >= INSERT_BATCH then 2 * INSERT_BATCH else 2 * n + 1
  }

  function FirstBatch(refs: seq<DocRef>): seq<DocRef>
  {
    if |refs| >= INSERT_BATCH then refs[..INSERT_BATCH] else refs
  }

  /** At a turn of the loop: k documents read and n of them inserted, nothing has failed, and this is the clock. */
  ghost predicate OnTime(target: Target, from: nat, now: nat, k: nat, n: nat)
  {
    now == from + 2 * k + n / INSERT_BATCH && n % INSERT_BATCH == 0 && n <= k < n + INSERT_BATCH && target.FineIn(from, now)
  }

  lemma OnTimeStart(target: Target, from: nat)
    ensures OnTime(target, from, from, 0, 0)
  {
  }

  /** The read that looks for another document. */
  lemma SeekFine(target: Target, from: nat, now: nat, k: nat, n: nat, all: nat)
    requires OnTime(target, from, now, k, n) && k <= all
    ensures target.FineIn(from, from + LoadOps(all)) ==> target.fate(now).Fine?
    ensures all > 0 && target.BreaksAt(from, FirstInsert(all)) ==> target.fate(now).Fine? && n == 0
  {
    assert n / INSERT_BATCH <= all / INSERT_BATCH;
    if all > 0 && target.BreaksAt(from, FirstInsert(all)) {
      assert now <= from + FirstInsert(all);
    }
  }

  /** The read of the document itself. */
  lemma GetFine(target: Target, from: nat, now: nat, k: nat, n: nat, all: nat)
    requires OnTime(target, from, now, k, n) && k < all && target.fate(now).Fine?
    ensures target.FineIn(from, from + LoadOps(all)) ==> target.fate(now + 1).Fine?
    ensures target.BreaksAt(from, FirstInsert(all)) ==> target.fate(now + 1).Fine? && n == 0
  {
  }

  lemma OnTimeNext(target: Target, from: nat, now: nat, k: nat, n: nat)
    requires OnTime(target, from, now, k, n) && target.fate(now).Fine? && target.fate(now + 1).Fine?
    ensures k + 1 < n + INSERT_BATCH ==> OnTime(target, from, now + 2, k + 1, n)
    ensures k + 1 == n + INSERT_BATCH && target.fate(now + 2).Fine? ==> OnTime(target, from, now + 3, k + 1, k + 1)
  {
  }

  /** The insert of a full batch. */
  lemma InsertFine(target: Target, from: nat, now: nat, n: nat, all: nat)
    requires OnTime(target, from, now, n + INSERT_BATCH - 1, n) && n + INSERT_BATCH <= all
    requires target.fate(now).Fine? && target.fate(now + 1).Fine?
    ensures target.FineIn(from, from + LoadOps(all)) ==> target.fate(now + 2).Fine?
    ensures target.BreaksAt(from, FirstInsert(all)) ==> now + 2 == from + FirstInsert(all) && n == 0 && target.fate(now + 2).Breaks? && target.fate(now + 2).part > 0
  {
  }

  /** The end of the list, with nothing more to insert or with one more batch. */
  lemma EndFine(target: Target, from: nat, now: nat, n: nat, all: nat)
    requires OnTime(target, from, now, all, n) && target.fate(now).Fine?
    ensures n == all ==> now + 1 == from + LoadOps(all) && target.FineIn(from, now + 1)
    ensures n == all && all > 0 ==> !target.BreaksAt(from, FirstInsert(all))
    ensures n < all ==> now + 2 == from + LoadOps(all)
    ensures n < all && target.fate(now + 1).Fine? ==> target.FineIn(from, now + 2)
    ensures n < all && target.FineIn(from, from + LoadOps(all)) ==> target.fate(now + 1).Fine?
    ensures n < all && target.BreaksAt(from, FirstInsert(all)) ==> now + 1 == from + FirstInsert(all) && n == 0 && target.fate(now + 1).Breaks? && target.fate(now + 1).part > 0
  {
  }

  lemma FirstStored(objects: map<Hash, Bytes>, refs: seq<DocRef>, n: nat, batch: seq<DocRef>)
    requires n + |batch| <= |refs| && batch == refs[n..n + |batch|] && AllStored(objects, refs[..n]) && AllStored(objects, batch)
    requires n + |batch| == |refs| || |batch| == INSERT_BATCH
    ensures AllStored(objects, FirstBatch(refs))
  {
    forall r | r in FirstBatch(refs) ensures r.hash in objects {
      var i :| 0 <= i < |FirstBatch(refs)| && FirstBatch(refs)[i] == r;
      assert i < n ==> refs[..n][i] == r;
      assert i >= n ==> batch[i - n] == r;
    }
  }

  lemma StillNone(was: Database, mid: Database, c: Coll, w: Wire, objects: map<Hash, Bytes>)
    requires Loaded(was, mid, c, w, objects, [])
    ensures Look(was, c) == None ==> DocsOf(Look(mid, c)) == map[]
  {
  }

  /** insertDocs. The ghost result is how far the list got into the collection. */
  method InsertDocs(w: Wire, it: BoltDocRefIterator, objects: map<Hash, Bytes>, target: Target, c: Coll)
    returns (written: nat, ok: bool, ghost n: nat)
    requires it.Valid()
    modifies it, target
    ensures n <= |old(it.Pending())| && written <= n
    ensures Loaded(old(target.db), target.db, c, w, objects, old(it.Pending())[..n])
    ensures ok ==> written == n == |old(it.Pending())|
    ensures n > 0 ==> AllStored(objects, FirstBatch(old(it.Pending())))
    ensures old(target.clock) <= target.clock
    ensures var end := old(target.clock) + LoadOps(|old(it.Pending())|);
      && (ok ==> target.clock == end && target.FineIn(old(target.clock), end))
      && (target.FineIn(old(target.clock), end) && CanLoad(old(target.db), c, w, objects, old(it.Pending())) ==> ok)
    ensures var (refs, from) := (old(it.Pending()), old(target.clock));
      refs != [] && AllStored(objects, FirstBatch(refs)) && Look(old(target.db), c) == None &&
      target.BreaksAt(from, FirstInsert(|refs|)) ==>
        !ok && n > 0 && target.clock == from + FirstInsert(|refs|) + 1
  {
    hide *;
    ghost var refs := it.Pending();
    ghost var from := target.clock;
    var batch: seq<Doc> := [];
    written, ok, n := 0, false, 0;
    LoadedNothing(target.db, c, w, objects, refs);
    OnTimeStart(target, from);
    BatchStart(w, objects, refs, 0);
    while true
      invariant written == n && n + |batch| <= |refs| && from <= target.clock
      invariant it.Valid() && it.Pending() == refs[n + |batch|..]
      invariant Batch(w, objects, refs, n, batch)
      invariant Loaded(old(target.db), target.db, c, w, objects, refs[..n])
      invariant OnTime(target, from, target.clock, n + |batch|, n) && |batch| < INSERT_BATCH
      invariant n > 0 ==> AllStored(objects, FirstBatch(refs))
      decreases |it.Pending()|
    {
      ghost var now, k := target.clock, n + |batch|;
      SeekFine(target, from, now, k, n, |refs|);
      var more := target.Read();
      if !more {
        return;
      }
      var ref, found := it.Next();
      if !found {
        break;
      }
      NextLeft(refs, k);
      GetFine(target, from, now, k, n, |refs|);
      var got := target.Read();
      if !got || ref.hash !in objects {
        MissingObject(objects, refs, k);
        return;
      }
      BatchNext(w, objects, refs, n, batch);
      OnTimeNext(target, from, now, k, n);
      batch := batch + [DocAt(w, objects, ref)];
      if |batch| >= INSERT_BATCH {
        InsertFine(target, from, now, n, |refs|);
        ghost var part;
        ok, part := InsertBatch(w, objects, target, c, batch, old(target.db), refs, n);
        n := n + part;
        if !ok {
          return;
        }
        ok := false;
        written := written + |batch|;
        batch := [];
        BatchStart(w, objects, refs, n);
      }
    }
    EndFine(target, from, target.clock - 1, n, |refs|);
    if |batch| > 0 {
      ghost var part;
      ok, part := InsertBatch(w, objects, target, c, batch, old(target.db), refs, n);
      n := n + part;
      if !ok {
        return;
      }
      written := written + |batch|;
    }
    ok := true;
  }

  lemma NextLeft(refs: seq<DocRef>, k: nat)
    requires k < |refs|
    ensures refs[k..][0] == refs[k] && refs[k..][1..] == refs[k + 1..]
  {
  }

  /** flush. */
  method InsertBatch(w: Wire, objects: map<Hash, Bytes>, target: Target, c: Coll, batch: seq<Doc>, ghost was: Database,
                     ghost refs: seq<DocRef>, ghost n: nat)
    returns (ok: bool, ghost part: nat)
    requires batch != [] && n + |batch| <= |refs| && (n + |batch| == |refs| || |batch| == INSERT_BATCH)
    requires Loaded(was, target.db, c, w, objects, refs[..n]) && Batch(w, objects, refs, n, batch)
    modifies target
    ensures part <= |batch| && (ok ==> part == |batch|)
    ensures Loaded(was, target.db, c, w, objects, refs[..n + part])
    ensures AllStored(objects, FirstBatch(refs))
    ensures target.clock == old(target.clock) + 1 && (ok ==> target.fate(old(target.clock)).Fine?)
    ensures target.fate(old(target.clock)).Fine? && CanLoad(was, c, w, objects, refs) ==> ok
    ensures n == 0 && Look(was, c) == None && target.fate(old(target.clock)).Breaks? && target.fate(old(target.clock)).part > 0 ==> part > 0
  {
    hide *;
    ghost var mid := target.db;
    ghost var batchRefs := refs[n..n + |batch|];
    BatchDone(w, objects, refs, n, batch);
    BatchAbsent(was, mid, c, w, objects, refs, n, batchRefs, batch);
    LoadedStored(was, mid, c, w, objects, refs[..n]);
    FirstStored(objects, refs, n, batchRefs);
    if n == 0 {
      assert refs[..0] == [];
      StillNone(was, mid, c, w, objects);
    }
    ok, part := target.InsertMany(c, batch);
    LoadedMore(was, mid, target.db, c, w, objects, refs[..n], batchRefs, part);
    assert refs[..n] + batchRefs[..part] == refs[..n + part];
  }

  lemma LoadedStored(was: Database, now: Database, c: Coll, w: Wire, objects: map<Hash, Bytes>, refs: seq<DocRef>)
    requires Loaded(was, now, c, w, objects, refs)
    ensures AllStored(objects, refs)
  {
  }

  lemma MissingObject(objects: map<Hash, Bytes>, refs: seq<DocRef>, i: nat)
    requires i < |refs|
    ensures refs[i].hash !in objects ==> forall db, c, w :: !CanLoad(db, c, w, objects, refs)
    ensures refs[i].hash !in objects && i < INSERT_BATCH ==> !AllStored(objects, FirstBatch(refs))
  {
    assert i < INSERT_BATCH ==> FirstBatch(refs)[i] == refs[i];
  }

  /** If the whole list can go in, so can the next batch. */
  lemma BatchAbsent(was: Database, mid: Database, c: Coll, w: Wire, objects: map<Hash, Bytes>, refs: seq<DocRef>, n: nat,
                    batchRefs: seq<DocRef>, batch: seq<Doc>)
    requires n + |batchRefs| <= |refs| && batchRefs == refs[n..n + |batchRefs|]
    requires Loaded(was, mid, c, w, objects, refs[..n]) && batch == DocsAt(w, objects, batchRefs)
    ensures CanLoad(was, c, w, objects, refs) ==> Absent(Look(mid, c), batch)
  {
    var x, a, rest := Look(was, c), DocsAt(w, objects, refs[..n]), DocsAt(w, objects, refs[n + |batchRefs|..]);
    LookPut(was, c, WithDocs(x, a));
    assert refs == refs[..n] + batchRefs + refs[n + |batchRefs|..];
    DocsAtConcat(w, objects, refs[..n], batchRefs);
    DocsAtConcat(w, objects, refs[..n] + batchRefs, refs[n + |batchRefs|..]);
    if Absent(x, DocsAt(w, objects, refs)) {
      AbsentRest(x, a, batch, rest);
    }
  }

  /** The batch in hand is what the refs from n on lead to. */
  ghost predicate Batch(w: Wire, objects: map<Hash, Bytes>, refs: seq<DocRef>, n: nat, batch: seq<Doc>)
  {
    && n + |batch| <= |refs| && AllStored(objects, refs[n..n + |batch|])
    && batch == DocsAt(w, objects, refs[n..n + |batch|])
  }

  lemma BatchStart(w: Wire, objects: map<Hash, Bytes>, refs: seq<DocRef>, n: nat)
    requires n <= |refs|
    ensures Batch(w, objects, refs, n, [])
  {
  }

  lemma BatchNext(w: Wire, objects: map<Hash, Bytes>, refs: seq<DocRef>, n: nat, batch: seq<Doc>)
    requires Batch(w, objects, refs, n, batch) && n + |batch| < |refs| && refs[n + |batch|].hash in objects
    ensures Batch(w, objects, refs, n, batch + [DocAt(w, objects, refs[n + |batch|])])
  {
    assert refs[n..n + |batch| + 1] == refs[n..n + |batch|] + [refs[n + |batch|]];
  }

  lemma BatchDone(w: Wire, objects: map<Hash, Bytes>, refs: seq<DocRef>, n: nat, batch: seq<Doc>)
    requires Batch(w, objects, refs, n, batch)
    ensures n + |batch| <= |refs| && AllStored(objects, refs[n..n + |batch|]) && batch == DocsAt(w, objects, refs[n..n + |batch|])
  {
  }

  // ---- Restore ----

  lemma WithIndexesTwice(x: Option<Collection>, a: set<IndexSpec>, b: set<IndexSpec>)
    ensures WithIndexes(WithIndexes(x, a), b) == WithIndexes(x, a + b)
  {
    if a == {} {
      assert a + b == b;
    } else if b == {} {
      assert a + b == a;
    } else {
      assert IndexesOf(x) + a + b == IndexesOf(x) + (a + b);
    }
  }

  lemma ExplicitNext(specs: seq<IndexSpec>, i: nat)
    requires i < |specs|
    ensures Explicit(specs[..i + 1]) == Explicit(specs[..i]) + (if specs[i].name == ID_INDEX then {} else {specs[i]})
  {
  }

  /** What recreateIndexes takes: one operation per index other than the one on _id. */
  function IndexOps(specs: seq<IndexSpec>): nat
  {
    if specs == [] then 0
    else IndexOps(specs[..|specs| - 1]) + (if specs[|specs| - 1].name == ID_INDEX then 0 else 1)
  }

  lemma {:induction false} NoIndexOps(specs: seq<IndexSpec>)
    ensures IndexOps(specs) == 0 <==> Explicit(specs) == {}
  {
    if specs != [] {
      var n := |specs| - 1;
      NoIndexOps(specs[..n]);
      ExplicitNext(specs, n);
      assert specs[..n + 1] == specs;
    }
  }

  lemma IndexOpsSnoc(specs: seq<IndexSpec>, spec: IndexSpec)
    ensures IndexOps(specs + [spec]) == IndexOps(specs) + (if spec.name == ID_INDEX then 0 else 1)
  {
    assert (specs + [spec])[..|specs|] == specs;
  }

  lemma IndexOpsUpTo(specs: seq<IndexSpec>, i: nat)
    requires i < |specs|
    ensures IndexOps(specs[..i + 1]) == IndexOps(specs[..i]) + (if specs[i].name == ID_INDEX then 0 else 1)
    ensures IndexOps(specs[..i + 1]) <= IndexOps(specs)
  {
    hide IndexOps;
    assert specs[..i + 1] == specs[..i] + [specs[i]];
    IndexOpsSnoc(specs[..i], specs[i]);
    IndexOpsGrow(specs, i + 1);
  }

  lemma {:induction false} IndexOpsGrow(specs: seq<IndexSpec>, i: nat)
    requires i <= |specs|
    ensures IndexOps(specs[..i]) <= IndexOps(specs)
    decreases |specs|
  {
    if i == |specs| {
      assert specs[..i] == specs;
    } else {
      var n := |specs| - 1;
      assert specs[..n][..i] == specs[..i];
      IndexOpsGrow(specs[..n], i);
    }
  }

  /** recreateIndexes. */
  method RecreateIndexes(target: Target, c: Coll, specs: seq<IndexSpec>) returns (ok: bool, ghost made: set<IndexSpec>)
    modifies target
    ensures target.db == Put(old(target.db), c, WithIndexes(Look(old(target.db), c), made))
    ensures made <= Explicit(specs) && (ok ==> made == Explicit(specs))
    ensures ok && Compatible(IndexesOf(Look(old(target.db), c))) ==> Compatible(IndexesOf(Look(old(target.db), c)) + Explicit(specs))
    ensures old(target.clock) <= target.clock
    ensures var end := old(target.clock) + IndexOps(specs);
      && (ok ==> target.clock == end && target.FineIn(old(target.clock), end))
      && (target.FineIn(old(target.clock), end) && Compatible(IndexesOf(Look(old(target.db), c)) + Explicit(specs)) ==> ok)
    ensures IndexesOf(Look(old(target.db), c)) == {} && Explicit(specs) != {} && target.BreaksAt(old(target.clock), 0) ==>
      !ok && made != {} && target.clock == old(target.clock) + 1
  {
    hide *;
    ghost var was, from := target.db, target.clock;
    ghost var x := Look(was, c);
    made := {};
    NoIndexes(was, c);
    NoIndexOps(specs);
    NoneFails(target, from);
    assert specs[..0] == [];
    NoIndexOps(specs[..0]);
    for i := 0 to |specs|
      invariant target.db == Put(was, c, WithIndexes(x, made))
      invariant made == Explicit(specs[..i]) && made <= Explicit(specs)
      invariant target.clock == from + IndexOps(specs[..i]) && from <= target.clock && target.FineIn(from, target.clock)
      invariant Compatible(IndexesOf(x)) ==> Compatible(IndexesOf(x) + made)
    {
      ExplicitNext(specs, i);
      ExplicitWhole(specs, i);
      IndexOpsUpTo(specs, i);
      NoIndexOps(specs[..i]);
      if specs[i].name != ID_INDEX {
        ghost var mid, now := target.db, target.clock;
        NextIndex(was, mid, c, x, made, Explicit(specs), specs[i]);
        NextFine(target, from, now, from + IndexOps(specs));
        var created := target.CreateIndex(c, specs[i]);
        if !created {
          if target.db == Put(mid, c, WithIndexes(Look(mid, c), {specs[i]})) {
            made := made + {specs[i]};
          }
          return false, made;
        }
        made := made + {specs[i]};
      }
    }
    assert specs[..|specs|] == specs;
    NotBroken(target, from, target.clock);
    ok := true;
  }

  lemma NextFine(target: Target, from: nat, now: nat, end: nat)
    requires from <= now < end && target.FineIn(from, now)
    ensures target.FineIn(from, end) ==> target.fate(now).Fine?
    ensures target.fate(now).Fine? ==> target.FineIn(from, now + 1)
    ensures target.BreaksAt(from, 0) ==> now == from && target.fate(from).Breaks? && target.fate(from).part > 0
  {
  }

  lemma NoneFails(target: Target, from: nat)
    ensures target.FineIn(from, from)
  {
  }

  lemma NotBroken(target: Target, from: nat, now: nat)
    requires from <= now && target.FineIn(from, now)
    ensures from < now ==> !target.BreaksAt(from, 0)
  {
  }

  /** One more index, on top of those made. */
  lemma NextIndex(was: Database, mid: Database, c: Coll, x: Option<Collection>, made: set<IndexSpec>, all: set<IndexSpec>,
                  spec: IndexSpec)
    requires x == Look(was, c) && mid == Put(was, c, WithIndexes(x, made)) && made <= all && spec in all
    ensures Put(mid, c, WithIndexes(Look(mid, c), {spec})) == Put(was, c, WithIndexes(x, made + {spec}))
    ensures IndexesOf(Look(mid, c)) == IndexesOf(x) + made
    ensures Compatible(IndexesOf(x) + all) ==> !Conflicts(IndexesOf(Look(mid, c)), spec)
    ensures Compatible(IndexesOf(x) + made) && !Conflicts(IndexesOf(Look(mid, c)), spec) ==> Compatible(IndexesOf(x) + (made + {spec}))
  {
    LookPut(was, c, WithIndexes(x, made));
    WithIndexesTwice(x, made, {spec});
    PutTwice(was, c, WithIndexes(x, made), WithIndexes(x, made + {spec}));
    assert spec in IndexesOf(x) + all;
  }

  lemma NoIndexes(db: Database, c: Coll)
    ensures Put(db, c, WithIndexes(Look(db, c), {})) == db
    ensures Explicit([]) == {} && IndexesOf(Look(db, c)) + {} == IndexesOf(Look(db, c))
  {
  }

  lemma ExplicitWhole(specs: seq<IndexSpec>, i: nat)
    requires i < |specs|
    ensures specs[i].name != ID_INDEX ==> specs[i] in Explicit(specs)
  {
  }

  /** What the snapshot's manifest lists. */
  datatype SavedManifest = SavedManifest(id: Bytes, collections: map<Coll, seq<IndexSpec>>)

  datatype RestoreOptions = RestoreOptions(collection: Coll, drop: bool)

  datatype RestoreResult = RestoreResult(collections: seq<Coll>, touched: seq<Coll>, docsWritten: nat)

  /** The collections to restore; an empty option means all. */
  function Chosen(m: SavedManifest, collection: Coll): set<Coll>
  {
    set c | c in m.collections && (collection == [] || c == collection)
  }

  /** What a collection becomes: with Drop, just the snapshot's documents and indexes; without, those on top. */
  function Restored(was: Option<Collection>, docs: seq<Doc>, specs: seq<IndexSpec>, drop: bool): Option<Collection>
  {
    WithIndexes(WithDocs(if drop then None else was, docs), Explicit(specs))
  }

  /** The stored documents of a snapshot's collection. */
  function StoredDocs(w: Wire, backend: BoltBackend, m: SavedManifest, c: Coll): seq<Doc>
    reads backend
  {
    DocsAt(w, backend.objects, List(backend.docRefs, m.id, c))
  }

  /** Collection c is now as the restore makes it. */
  ghost predicate Done(was: Database, now: Database, w: Wire, backend: BoltBackend, m: SavedManifest, c: Coll, drop: bool)
    reads backend
  {
    && c in m.collections
    && AllStored(backend.objects, List(backend.docRefs, m.id, c))
    && Look(now, c) == Restored(Look(was, c), StoredDocs(w, backend, m, c), m.collections[c], drop)
  }

  predicate Unchanged(was: Database, now: Database, c: Coll)
  {
    Look(now, c) == Look(was, c)
  }

  /** Nothing that was in the collection is missing or different. */
  ghost predicate Preserved(was: Database, now: Database, c: Coll)
  {
    && IndexesOf(Look(was, c)) <= IndexesOf(Look(now, c))
    && forall id :: id in DocsOf(Look(was, c)) ==> id in DocsOf(Look(now, c)) && DocsOf(Look(now, c))[id] == DocsOf(Look(was, c))[id]
  }

  /** The names in ascending order, each once. */
  ghost predicate Lists(sorted: seq<Coll>, names: set<Coll>)
  {
    && (forall c :: c in sorted <==> c in names)
    && forall i, j :: 0 <= i < j < |sorted| ==> Less(sorted[i], sorted[j])
  }

  /** sort.Strings over the chosen names. */
  method SortedNames(names: set<Coll>) returns (sorted: seq<Coll>)
    ensures Lists(sorted, names)
  {
    hide Less;
    sorted := [];
    var todo := names;
    while todo != {}
      invariant todo <= names && forall c :: c in names <==> c in sorted || c in todo
      invariant forall i, j :: 0 <= i < j < |sorted| ==> Less(sorted[i], sorted[j])
      invariant forall i, c :: 0 <= i < |sorted| && c in todo ==> Less(sorted[i], c)
      decreases |todo|
    {
      var c := Least(todo);
      forall x | x in todo && x != c ensures Less(c, x) {
        LessTotal(c, x);
      }
      todo := todo - {c};
      sorted := sorted + [c];
    }
  }

  lemma PreservedSteps(was: Database, now: Database, c: Coll, docs: seq<Doc>, made: set<IndexSpec>)
    requires Absent(Look(was, c), docs)
    requires now == Put(was, c, WithIndexes(WithDocs(Look(was, c), docs), made))
    ensures Preserved(was, now, c) && forall k :: k != c ==> Unchanged(was, now, k)
    ensures Look(now, c) == WithIndexes(WithDocs(Look(was, c), docs), made)
  {
    LookPut(was, c, WithIndexes(WithDocs(Look(was, c), docs), made));
    WithDocsHas(Look(was, c), docs);
    NothingLost(Look(was, c), docs);
  }

  /** The stored collection can be restored into nothing: every object is there, no ID and no index name comes twice. */
  ghost predicate Whole(w: Wire, b: Bucket, objects: map<Hash, Bytes>, m: SavedManifest, c: Coll)
  {
    && c in m.collections && AllStored(objects, List(b, m.id, c))
    && DistinctDocs(DocsAt(w, objects, List(b, m.id, c))) && Compatible(Explicit(m.collections[c]))
  }

  ghost predicate CanRestore(w: Wire, backend: BoltBackend, m: SavedManifest, collection: Coll)
    reads backend
  {
    && (collection != [] ==> collection in m.collections)
    && forall c :: c in Chosen(m, collection) ==> Whole(w, backend.docRefs, backend.objects, m, c)
  }

  /** What restoring a collection into nothing takes, the drop before it included. */
  function OneOps(refs: seq<DocRef>, specs: seq<IndexSpec>): nat
  {
    1 + LoadOps(|refs|) + IndexOps(specs)
  }

  /** After the drop, how many operations come before the first that puts something into the collection. */
  function FirstPut(refs: seq<DocRef>): nat
  {
    if refs == [] then 1 else FirstInsert(|refs|)
  }

  /** Even if the restore of this collection fails, it can leave something there: a document of its first batch, or, when
      there are no documents, an index. */
  ghost predicate LeavesTrace(b: Bucket, objects: map<Hash, Bytes>, m: SavedManifest, c: Coll)
  {
    && c in m.collections
    && var refs := List(b, m.id, c); if refs == [] then Explicit(m.collections[c]) != {} else AllStored(objects, FirstBatch(refs))
  }

  /** Nothing about the stored collection keeps it from going into this database. */
  ghost predicate CanRefill(w: Wire, backend: BoltBackend, m: SavedManifest, db: Database, c: Coll)
    requires c in m.collections
    reads backend
  {
    && CanLoad(db, c, w, backend.objects, List(backend.docRefs, m.id, c))
    && Compatible(IndexesOf(Look(db, c)) + Explicit(m.collections[c]))
  }

  /** The body of Restore's loop after the drop: insertDocs and recreateIndexes. The ghost results are how far the list got
      into the collection and which indexes were made. */
  method Refill(w: Wire, backend: BoltBackend, m: SavedManifest, target: Target, c: Coll)
    returns (written: nat, ok: bool, ghost n: nat, ghost made: set<IndexSpec>)
    requires c in m.collections
    modifies target
    ensures var refs := List(backend.docRefs, m.id, c);
      && n <= |refs| && AllStored(backend.objects, refs[..n])
      && Absent(Look(old(target.db), c), DocsAt(w, backend.objects, refs[..n]))
      && target.db == Put(old(target.db), c, WithIndexes(WithDocs(Look(old(target.db), c), DocsAt(w, backend.objects, refs[..n])), made))
      && (ok ==> n == |refs| == written && made == Explicit(m.collections[c]))
      && (n > 0 ==> AllStored(backend.objects, FirstBatch(refs))) && (made != {} ==> n == |refs|)
    ensures made <= Explicit(m.collections[c])
    ensures ok && IndexesOf(Look(old(target.db), c)) == {} ==> Compatible(Explicit(m.collections[c]))
    ensures old(target.clock) <= target.clock
    ensures var (from, refs, specs) := (old(target.clock), List(backend.docRefs, m.id, c), m.collections[c]);
      && (ok ==> target.clock == from + OneOps(refs, specs) - 1 && target.FineIn(from, target.clock))
      && (target.FineIn(from, from + OneOps(refs, specs) - 1) && CanRefill(w, backend, m, old(target.db), c) ==> ok)
      && (Look(old(target.db), c) == None && LeavesTrace(backend.docRefs, backend.objects, m, c) && target.BreaksAt(from, FirstPut(refs)) ==>
            !ok && (n > 0 || made != {}) && target.clock == from + FirstPut(refs) + 1)
  {
    hide *;
    ghost var refs, specs, was, from := List(backend.docRefs, m.id, c), m.collections[c], target.db, target.clock;
    var it := new BoltDocRefIterator(backend.docRefs, m.id, c);
    made := {};
    Counts(refs, specs);
    RefillTimes(target, from, refs, specs);
    if LeavesTrace(backend.docRefs, backend.objects, m, c) {
      TraceOf(backend, m, c);
    }
    if CanRefill(w, backend, m, was, c) {
      RefillNeeds(w, backend, m, was, c);
    }
    if refs == [] {
      EmptyLoads(was, c, w, backend.objects);
    }
    written, ok, n := InsertDocs(w, it, backend.objects, target, c);
    ghost var filled, loaded := target.db, target.clock;
    LoadedIs(was, filled, c, w, backend.objects, refs[..n]);
    NothingAdded(WithDocs(Look(was, c), DocsAt(w, backend.objects, refs[..n])));
    if !ok {
      return;
    }
    assert refs[..n] == refs;
    ok, made := RecreateIndexes(target, c, m.collections[c]);
    FineJoins(target, from, loaded, target.clock);
    PutTwice(was, c, WithDocs(Look(was, c), DocsAt(w, backend.objects, refs)),
             WithIndexes(WithDocs(Look(was, c), DocsAt(w, backend.objects, refs)), made));
    InsertedIndexes(Look(was, c), DocsAt(w, backend.objects, refs));
    NothingAdded(Look(was, c));
    OnlyThese(IndexesOf(Look(was, c)), Explicit(specs));
  }

  lemma RefillNeeds(w: Wire, backend: BoltBackend, m: SavedManifest, db: Database, c: Coll)
    requires c in m.collections && CanRefill(w, backend, m, db, c)
    ensures CanLoad(db, c, w, backend.objects, List(backend.docRefs, m.id, c))
    ensures Compatible(IndexesOf(Look(db, c)) + Explicit(m.collections[c]))
  {
  }

  lemma OnlyThese(indexes: set<IndexSpec>, more: set<IndexSpec>)
    ensures indexes == {} ==> Compatible(indexes) && indexes + more == more
  {
  }

  lemma InsertedIndexes(x: Option<Collection>, docs: seq<Doc>)
    ensures IndexesOf(WithDocs(x, docs)) == IndexesOf(x)
  {
    WithDocsHas(x, docs);
  }

  lemma Counts(refs: seq<DocRef>, specs: seq<IndexSpec>)
    ensures OneOps(refs, specs) - 1 == LoadOps(|refs|) + IndexOps(specs)
    ensures FirstPut(refs) == if refs == [] then 1 else FirstInsert(|refs|)
    ensures refs == [] ==> LoadOps(|refs|) == 1
  {
  }

  lemma TraceOf(backend: BoltBackend, m: SavedManifest, c: Coll)
    requires LeavesTrace(backend.docRefs, backend.objects, m, c)
    ensures c in m.collections
    ensures var refs := List(backend.docRefs, m.id, c);
      if refs == [] then Explicit(m.collections[c]) != {} else AllStored(backend.objects, FirstBatch(refs))
  {
  }

  lemma EmptyLoads(was: Database, c: Coll, w: Wire, objects: map<Hash, Bytes>)
    ensures CanLoad(was, c, w, objects, [])
  {
  }

  lemma NothingAdded(x: Option<Collection>)
    ensures WithIndexes(x, {}) == x
    ensures x == None ==> IndexesOf(x) == {}
  {
  }

  lemma RefillTimes(target: Target, from: nat, refs: seq<DocRef>, specs: seq<IndexSpec>)
    ensures target.FineIn(from, from + LoadOps(|refs|) + IndexOps(specs)) ==>
      target.FineIn(from, from + LoadOps(|refs|)) &&
      target.FineIn(from + LoadOps(|refs|), from + LoadOps(|refs|) + IndexOps(specs))
    ensures target.BreaksAt(from, 1) ==> target.FineIn(from, from + 1) && target.BreaksAt(from + 1, 0)
  {
  }

  lemma FineJoins(target: Target, a: nat, b: nat, c: nat)
    ensures target.FineIn(a, b) && target.FineIn(b, c) ==> target.FineIn(a, c)
  {
  }

  /** What a failed drop restore of one collection tells: something failed or the collection is not whole, the failing
      drop was the only operation, and an operation that broke while putting the first thing there was the last one. */
  ghost predicate StoppedHere(w: Wire, backend: BoltBackend, m: SavedManifest, c: Coll, target: Target, now: nat, db: Database,
                              clock: nat)
    requires c in m.collections
    reads backend
  {
    var refs := List(backend.docRefs, m.id, c);
    && !(target.FineIn(now, now + OneOps(refs, m.collections[c])) && Whole(w, backend.docRefs, backend.objects, m, c))
    && (target.fate(now).Breaks? ==> clock == now + 1)
    && (LeavesTrace(backend.docRefs, backend.objects, m, c) && target.BreaksAt(now, FirstPut(refs) + 1) ==> c in db && clock == now + FirstPut(refs) + 2)
  }

  lemma StoppedAtDrop(w: Wire, backend: BoltBackend, m: SavedManifest, c: Coll, target: Target, now: nat, db: Database)
    requires c in m.collections && target.fate(now).Breaks?
    ensures StoppedHere(w, backend, m, c, target, now, db, now + 1)
  {
    DropTimes(target, now, List(backend.docRefs, m.id, c), m.collections[c]);
    hide OneOps;
    hide FirstPut;
    hide Whole;
    hide LeavesTrace;
  }

  lemma StoppedLater(w: Wire, backend: BoltBackend, m: SavedManifest, c: Coll, target: Target, now: nat, db: Database, clock: nat)
    requires c in m.collections && target.fate(now).Fine?
    requires var refs := List(backend.docRefs, m.id, c);
      && !(target.FineIn(now + 1, now + OneOps(refs, m.collections[c])) && Whole(w, backend.docRefs, backend.objects, m, c))
      && (LeavesTrace(backend.docRefs, backend.objects, m, c) && target.BreaksAt(now + 1, FirstPut(refs)) ==> c in db && clock == now + FirstPut(refs) + 2)
    ensures StoppedHere(w, backend, m, c, target, now, db, clock)
  {
    DropTimes(target, now, List(backend.docRefs, m.id, c), m.collections[c]);
    hide OneOps;
    hide FirstPut;
    hide Whole;
    hide LeavesTrace;
  }

  /** The body of Restore's loop, for one collection, from the drop on. */
  method RestoreOne(w: Wire, backend: BoltBackend, m: SavedManifest, target: Target, c: Coll,
                    drop: bool) returns (written: nat, ok: bool)
    requires c in m.collections
    modifies target
    ensures forall k :: k != c ==> Unchanged(old(target.db), target.db, k)
    ensures ok ==> Done(old(target.db), target.db, w, backend, m, c, drop) && written == |List(backend.docRefs, m.id, c)|
    ensures !drop ==> Preserved(old(target.db), target.db, c)
    ensures drop && ok ==> Whole(w, backend.docRefs, backend.objects, m, c)
    ensures drop && c in target.db && c !in old(target.db) ==> LeavesTrace(backend.docRefs, backend.objects, m, c)
    ensures old(target.clock) <= target.clock
    ensures drop && ok ==>
      var end := old(target.clock) + OneOps(List(backend.docRefs, m.id, c), m.collections[c]);
      target.clock == end && target.FineIn(old(target.clock), end)
    ensures drop && !ok ==> StoppedHere(w, backend, m, c, target, old(target.clock), target.db, target.clock)
  {
    hide *;
    ghost var was, from, refs := target.db, target.clock, List(backend.docRefs, m.id, c);
    PreservedSame(was, c);
    DropTimes(target, from, refs, m.collections[c]);
    if drop {
      var dropped := target.Drop(c);
      DropOnly(was, c);
      if !dropped {
        StoppedAtDrop(w, backend, m, c, target, from, target.db);
        return 0, false;
      }
    }
    ghost var start, n, made := target.db, 0, {};
    if drop {
      NothingInTheWay(w, backend, m, start, c);
    }
    written, ok, n, made := Refill(w, backend, m, target, c);
    FineJoins(target, from, from + 1, target.clock);
    PreservedSteps(start, target.db, c, DocsAt(w, backend.objects, refs[..n]), made);
    OthersStill(was, start, target.db, c);
    if drop {
      TraceLeft(backend, m, c, target.db, Look(start, c), DocsAt(w, backend.objects, refs[..n]), n, made);
      if !ok {
        StoppedLater(w, backend, m, c, target, from, target.db, target.clock);
      }
    }
    if ok {
      assert refs[..n] == refs;
      StoredDocsIs(w, backend, m, c);
      if drop {
        WholeNow(w, backend, m, c, Look(start, c));
      }
      DoneIs(was, start, target.db, w, backend, m, c, drop);
    }
  }

  lemma StoredDocsIs(w: Wire, backend: BoltBackend, m: SavedManifest, c: Coll)
    ensures StoredDocs(w, backend, m, c) == DocsAt(w, backend.objects, List(backend.docRefs, m.id, c))
  {
  }

  lemma DropTimes(target: Target, from: nat, refs: seq<DocRef>, specs: seq<IndexSpec>)
    ensures var end := from + OneOps(refs, specs);
      target.FineIn(from, end) ==> target.fate(from).Fine? && target.FineIn(from + 1, end)
    ensures target.fate(from).Fine? ==> target.FineIn(from, from + 1)
    ensures target.BreaksAt(from, FirstPut(refs) + 1) ==> target.fate(from).Fine? && target.BreaksAt(from + 1, FirstPut(refs))
  {
  }

  /** Something is there after a restore into nothing only if a document or an index went in. */
  lemma TraceLeft(backend: BoltBackend, m: SavedManifest, c: Coll, now: Database, x: Option<Collection>, docs: seq<Doc>,
                  n: nat, made: set<IndexSpec>)
    requires c in m.collections && x == None && |docs| == n && Look(now, c) == WithIndexes(WithDocs(x, docs), made)
    requires made <= Explicit(m.collections[c])
    requires var refs := List(backend.docRefs, m.id, c);
      n <= |refs| && (n > 0 ==> AllStored(backend.objects, FirstBatch(refs))) && (made != {} ==> n == |refs|)
    ensures c in now <==> n > 0 || made != {}
    ensures c in now ==> LeavesTrace(backend.docRefs, backend.objects, m, c)
  {
  }

  lemma NothingInTheWay(w: Wire, backend: BoltBackend, m: SavedManifest, db: Database, c: Coll)
    requires Look(db, c) == None && c in m.collections
    ensures Whole(w, backend.docRefs, backend.objects, m, c) <==> CanRefill(w, backend, m, db, c)
    ensures IndexesOf(Look(db, c)) == {}
  {
    assert {} + Explicit(m.collections[c]) == Explicit(m.collections[c]);
  }

  lemma WholeNow(w: Wire, backend: BoltBackend, m: SavedManifest, c: Coll, x: Option<Collection>)
    requires c in m.collections && AllStored(backend.objects, List(backend.docRefs, m.id, c))
    requires Absent(x, StoredDocs(w, backend, m, c)) && Compatible(Explicit(m.collections[c]))
    ensures Whole(w, backend.docRefs, backend.objects, m, c)
  {
  }

  lemma PreservedSame(db: Database, c: Coll)
    ensures Preserved(db, db, c) && forall k :: Unchanged(db, db, k)
  {
  }

  lemma OthersStill(was: Database, mid: Database, now: Database, c: Coll)
    requires forall k :: k != c ==> Unchanged(was, mid, k)
    requires forall k :: k != c ==> Unchanged(mid, now, k)
    ensures forall k :: k != c ==> Unchanged(was, now, k)
  {
    forall k | k != c ensures Unchanged(was, now, k) {
      assert Unchanged(was, mid, k) && Unchanged(mid, now, k);
    }
  }

  lemma DropOnly(db: Database, c: Coll)
    ensures forall k :: k != c ==> Unchanged(db, Put(db, c, None), k)
    ensures Look(Put(db, c, None), c) == None && c !in Put(db, c, None)
  {
  }

  lemma LoadedIs(was: Database, now: Database, c: Coll, w: Wire, objects: map<Hash, Bytes>, refs: seq<DocRef>)
    requires Loaded(was, now, c, w, objects, refs)
    ensures AllStored(objects, refs) && Absent(Look(was, c), DocsAt(w, objects, refs))
    ensures now == Put(was, c, WithDocs(Look(was, c), DocsAt(w, objects, refs)))
    ensures Look(now, c) == WithDocs(Look(was, c), DocsAt(w, objects, refs))
    ensures now == Put(now, c, WithIndexes(Look(now, c), {}))
  {
  }

  lemma DoneIs(was: Database, start: Database, now: Database, w: Wire, backend: BoltBackend, m: SavedManifest, c: Coll,
               drop: bool)
    requires c in m.collections && AllStored(backend.objects, List(backend.docRefs, m.id, c))
    requires if drop then Look(start, c) == None else start == was
    requires Look(now, c) == WithIndexes(WithDocs(Look(start, c), StoredDocs(w, backend, m, c)), Explicit(m.collections[c]))
    ensures Done(was, now, w, backend, m, c, drop)
  {
  }

  /** Documents the snapshot has for these collections. */
  function TotalDocs(b: Bucket, id: Bytes, names: seq<Coll>): nat
  {
    if names == [] then 0 else TotalDocs(b, id, names[..|names| - 1]) + |List(b, id, names[|names| - 1])|
  }

  /** How far a restore has got: these collections are done, and no other has changed. */
  ghost predicate Reached(was: Database, now: Database, w: Wire, backend: BoltBackend, m: SavedManifest,
                          names: seq<Coll>, drop: bool)
    reads backend
  {
    && (forall c :: c in names ==> Done(was, now, w, backend, m, c, drop))
    && (forall c :: c !in names ==> Unchanged(was, now, c))
    && (!drop ==> forall c :: Preserved(was, now, c))
  }

  lemma ReachedNothing(db: Database, w: Wire, backend: BoltBackend, m: SavedManifest, drop: bool)
    ensures Reached(db, db, w, backend, m, [], drop)
  {
  }

  lemma ReachedNext(was: Database, mid: Database, now: Database, w: Wire, backend: BoltBackend, m: SavedManifest,
                    names: seq<Coll>, c: Coll, drop: bool)
    requires Reached(was, mid, w, backend, m, names, drop) && c !in names
    requires forall k :: k != c ==> Unchanged(mid, now, k)
    requires Done(mid, now, w, backend, m, c, drop) && (!drop ==> Preserved(mid, now, c))
    ensures Reached(was, now, w, backend, m, names + [c], drop)
  {
    ReachedPartly(was, mid, now, w, backend, m, names, c, drop);
    hide Preserved;
    hide Restored;
    assert Unchanged(was, mid, c);
  }

  lemma ReachedPartly(was: Database, mid: Database, now: Database, w: Wire, backend: BoltBackend, m: SavedManifest,
                      names: seq<Coll>, c: Coll, drop: bool)
    requires Reached(was, mid, w, backend, m, names, drop) && c !in names
    requires forall k :: k != c ==> Unchanged(mid, now, k)
    requires !drop ==> Preserved(mid, now, c)
    ensures forall k :: k in names ==> Done(was, now, w, backend, m, k, drop)
    ensures forall k :: k !in names && k != c ==> Unchanged(was, now, k)
    ensures !drop ==> forall k :: Preserved(was, now, k)
  {
    hide Restored;
    hide AllStored;
    hide DocsAt;
    forall k | k != c ensures k in names ==> Done(was, now, w, backend, m, k, drop)
                      ensures k !in names ==> Unchanged(was, now, k) {
      assert Unchanged(mid, now, k);
      if k in names { assert Done(was, mid, w, backend, m, k, drop); } else { assert Unchanged(was, mid, k); }
    }
    if !drop {
      forall k ensures Preserved(was, now, k) {
        assert Preserved(was, mid, k);
        if k != c { assert Unchanged(mid, now, k); }
      }
    }
  }

  /** What restoring these collections takes, one after the other, each with its drop. */
  function OpsFor(b: Bucket, m: SavedManifest, names: seq<Coll>): nat
  {
    if names == [] then 0
    else
      var c := names[|names| - 1];
      OpsFor(b, m, names[..|names| - 1]) + (if c in m.collections then OneOps(List(b, m.id, c), m.collections[c]) else 0)
  }

  /** Counting from the start of a drop restore, operation n is the first that puts something into collection c. */
  ghost predicate FirstTouch(b: Bucket, m: SavedManifest, collection: Coll, c: Coll, n: nat)
  {
    exists names, i :: Lists(names, Chosen(m, collection)) && TouchedAt(b, m, names, i, c, n)
  }

  ghost predicate TouchedAt(b: Bucket, m: SavedManifest, names: seq<Coll>, i: nat, c: Coll, n: nat)
  {
    i < |names| && names[i] == c && n == OpsFor(b, m, names[..i]) + FirstPut(List(b, m.id, c)) + 1
  }

  /** A drop restore can get as far as this collection, leave something in it and fail. */
  ghost predicate LeftBehind(w: Wire, b: Bucket, objects: map<Hash, Bytes>, m: SavedManifest, collection: Coll, c: Coll)
  {
    && c in Chosen(m, collection) && LeavesTrace(b, objects, m, c)
    && forall k :: k in Chosen(m, collection) && Less(k, c) ==> Whole(w, b, objects, m, k)
  }

  /** Counting from `from`, operation n is the first to fail; it fails half-way, as it is putting the first thing into
      collection c, and nothing else keeps the restore from getting there. */
  ghost predicate BreaksInto(w: Wire, backend: BoltBackend, m: SavedManifest, collection: Coll, target: Target, from: nat,
                             c: Coll, n: nat)
    reads backend
  {
    FirstTouch(backend.docRefs, m, collection, c, n) && LeftBehind(w, backend.docRefs, backend.objects, m, collection, c) && target.BreaksAt(from, n)
  }

  /** How a drop restore ends, and what it leaves behind, as far as the fates of its operations tell: new collections are
      ones that can be left behind; it succeeds if nothing fails and the snapshot is whole; it fails if its first drop
      fails; and if an operation breaks while putting the first thing into a collection, that collection stays. */
  ghost predicate Accounted(w: Wire, backend: BoltBackend, m: SavedManifest, collection: Coll, target: Target, from: nat,
                            now: nat, was: Database, db: Database, ok: bool)
    reads backend
  {
    && NewLeftBehind(w, backend, m, collection, was, db)
    && (target.Calm(from) && CanRestore(w, backend, m, collection) ==> ok)
    && (Chosen(m, collection) != {} && target.fate(from).Breaks? ==> !ok && now == from + 1)
    && forall c, n: nat :: BreaksInto(w, backend, m, collection, target, from, c, n) ==> !ok && c in db && now == from + n + 1
  }

  ghost predicate NewLeftBehind(w: Wire, backend: BoltBackend, m: SavedManifest, collection: Coll, was: Database, db: Database)
    reads backend
  {
    forall c :: c in db && c !in was ==> LeftBehind(w, backend.docRefs, backend.objects, m, collection, c)
  }

  /** Restore. With an error, the result still says which collections were finished and which were dropped. */
  method Restore(w: Wire, backend: BoltBackend, m: SavedManifest, target: Target, opts: RestoreOptions)
    returns (r: RestoreResult, ok: bool, ghost names: seq<Coll>)
    modifies target
    ensures Lists(names, Chosen(m, opts.collection)) && r.collections <= names
    ensures if opts.drop then r.collections <= r.touched <= names && |r.touched| <= |r.collections| + 1 else r.touched == []
    ensures forall c :: c in r.collections ==> Done(old(target.db), target.db, w, backend, m, c, opts.drop)
    ensures forall c :: (if opts.drop then c !in r.touched else c !in names) ==> Unchanged(old(target.db), target.db, c)
    ensures !opts.drop ==> forall c :: Preserved(old(target.db), target.db, c)
    ensures r.docsWritten == TotalDocs(backend.docRefs, m.id, r.collections)
    ensures ok ==> r.collections == names && (opts.drop ==> r.touched == names)
    ensures ok ==> opts.collection == [] || opts.collection in m.collections
    ensures opts.collection != [] && opts.collection !in m.collections ==> !ok && target.db == old(target.db)
    ensures opts.collection == [] ==> Lists(names, m.collections.Keys)
    ensures opts.collection != [] ==> forall c :: c != opts.collection ==> Unchanged(old(target.db), target.db, c)
    ensures opts.collection != [] && ok ==> names == r.collections == [opts.collection]
    ensures old(target.clock) <= target.clock
    ensures opts.drop && !ok && Chosen(m, opts.collection) != {} ==> r.touched != []
    ensures opts.drop ==> Accounted(w, backend, m, opts.collection, target, old(target.clock), target.clock, old(target.db), target.db, ok)
  {
    hide *;
    ghost var was, from := target.db, target.clock;
    r := RestoreResult([], [], 0);
    var sorted := SortedNames(Chosen(m, opts.collection));
    names := sorted;
    ReachedNothing(was, w, backend, m, opts.drop);
    ReachedIs(was, was, w, backend, m, [], opts.drop);
    NoNames(sorted, m, opts.collection);
    ListsNothing(sorted, Chosen(m, opts.collection));
    ChosenAre(sorted, m, opts.collection);
    SteadyNothing(target, from, w, backend, m, opts.collection, was);
    TotalOfNone(backend.docRefs, m.id);
    assert sorted[..0] == [];
    if opts.collection != [] && |sorted| == 0 {
      return r, false, names;
    }
    for i := 0 to |sorted|
      invariant r.collections == sorted[..i] && r.touched == (if opts.drop then sorted[..i] else [])
      invariant r.docsWritten == TotalDocs(backend.docRefs, m.id, sorted[..i])
      invariant Reached(was, target.db, w, backend, m, sorted[..i], opts.drop)
      invariant from <= target.clock
      invariant opts.drop ==> Steady(target, from, target.clock, w, backend, m, sorted[..i])
      invariant opts.drop ==> NewLeftBehind(w, backend, m, opts.collection, was, target.db)
    {
      var c := sorted[i];
      assert sorted[..i + 1] == sorted[..i] + [c];
      NextName(sorted, m, opts.collection, i);
      if opts.drop {
        r := r.(touched := r.touched + [c]);
      }
      ghost var mid, now := target.db, target.clock;
      var written, restored := RestoreOne(w, backend, m, target, c, opts.drop);
      if opts.drop {
        LeftNext(w, backend, m, opts.collection, sorted, i, target, from, now, was, mid, target.db);
      }
      if !restored {
        ReachedPartly(was, mid, target.db, w, backend, m, sorted[..i], c, opts.drop);
        if opts.drop {
          StoppedAt(w, backend, m, opts.collection, sorted, i, target, from, now, was, target.db, target.clock);
        }
        return r, false, names;
      }
      ReachedNext(was, mid, target.db, w, backend, m, sorted[..i], c, opts.drop);
      TotalNext(backend.docRefs, m.id, sorted[..i], c);
      if opts.drop {
        SteadyNext(target, from, now, w, backend, m, sorted[..i], c);
      }
      r := r.(docsWritten := r.docsWritten + written, collections := r.collections + [c]);
    }
    assert sorted[..|sorted|] == sorted;
    ReachedIs(was, target.db, w, backend, m, sorted, opts.drop);
    if opts.drop {
      PassedAll(w, backend, m, opts.collection, sorted, target, from, target.clock, was, target.db);
    }
    ok := true;
  }

  lemma TotalOfNone(b: Bucket, id: Bytes)
    ensures TotalDocs(b, id, []) == 0
  {
  }

  lemma TotalNext(b: Bucket, id: Bytes, names: seq<Coll>, c: Coll)
    ensures TotalDocs(b, id, names + [c]) == TotalDocs(b, id, names) + |List(b, id, c)|
  {
    assert (names + [c])[..|names|] == names;
  }

  /** These collections have been restored, the clock says so, and nothing has failed. */
  ghost predicate Steady(target: Target, from: nat, now: nat, w: Wire, backend: BoltBackend, m: SavedManifest, names: seq<Coll>)
    reads backend
  {
    && now == from + OpsFor(backend.docRefs, m, names) && target.FineIn(from, now)
    && forall k :: k in names ==> Whole(w, backend.docRefs, backend.objects, m, k)
  }

  lemma SteadyNothing(target: Target, from: nat, w: Wire, backend: BoltBackend, m: SavedManifest, collection: Coll, was: Database)
    ensures Steady(target, from, from, w, backend, m, []) && NewLeftBehind(w, backend, m, collection, was, was)
    ensures Chosen(m, collection) == {} && collection != [] ==> Accounted(w, backend, m, collection, target, from, from, was, was, false)
  {
    hide LeftBehind;
    assert collection in m.collections ==> collection in Chosen(m, collection);
    forall c, n: nat | BreaksInto(w, backend, m, collection, target, from, c, n) ensures c in Chosen(m, collection) {
      BreakNeeds(w, backend, m, collection, target, from, c, n);
    }
  }

  lemma OpsNext(b: Bucket, m: SavedManifest, names: seq<Coll>, c: Coll)
    requires c in m.collections
    ensures OpsFor(b, m, names + [c]) == OpsFor(b, m, names) + OneOps(List(b, m.id, c), m.collections[c])
  {
    assert (names + [c])[..|names|] == names;
  }

  lemma SteadyNext(target: Target, from: nat, now: nat, w: Wire, backend: BoltBackend, m: SavedManifest,
                   names: seq<Coll>, c: Coll)
    requires Steady(target, from, now, w, backend, m, names) && Whole(w, backend.docRefs, backend.objects, m, c) && c in m.collections
    requires var end := now + OneOps(List(backend.docRefs, m.id, c), m.collections[c]); target.FineIn(now, end)
    ensures Steady(target, from, now + OneOps(List(backend.docRefs, m.id, c), m.collections[c]), w, backend, m, names + [c])
  {
    hide Whole;
    hide OneOps;
    OpsNext(backend.docRefs, m, names, c);
  }

  lemma LeftNext(w: Wire, backend: BoltBackend, m: SavedManifest, collection: Coll, sorted: seq<Coll>, i: nat,
                 target: Target, from: nat, now: nat, was: Database, mid: Database, db: Database)
    requires Lists(sorted, Chosen(m, collection)) && i < |sorted| && Steady(target, from, now, w, backend, m, sorted[..i])
    requires NewLeftBehind(w, backend, m, collection, was, mid)
    requires forall k :: k != sorted[i] ==> Unchanged(mid, db, k)
    requires sorted[i] in db && sorted[i] !in mid ==> LeavesTrace(backend.docRefs, backend.objects, m, sorted[i])
    ensures NewLeftBehind(w, backend, m, collection, was, db)
  {
    hide Whole;
    hide LeavesTrace;
    hide Less;
    forall c | c in db && c !in was ensures LeftBehind(w, backend.docRefs, backend.objects, m, collection, c) {
      if c != sorted[i] {
        assert Unchanged(mid, db, c);
      } else if c !in mid {
        forall k | k in Chosen(m, collection) && Less(k, c) ensures Whole(w, backend.docRefs, backend.objects, m, k) {
          BeforeIsDone(sorted, Chosen(m, collection), i, k);
        }
      }
    }
  }

  lemma BeforeIsDone(sorted: seq<Coll>, names: set<Coll>, i: nat, k: Coll)
    requires Lists(sorted, names) && i < |sorted| && k in names && Less(k, sorted[i])
    ensures k in sorted[..i]
  {
    hide Less;
    var j :| 0 <= j < |sorted| && sorted[j] == k;
    LessAntisymmetric(sorted, j, i);
    assert sorted[..i][j] == k;
  }

  lemma LessAntisymmetric(sorted: seq<Coll>, j: nat, i: nat)
    requires forall a, b :: 0 <= a < b < |sorted| ==> Less(sorted[a], sorted[b])
    requires j < |sorted| && i < |sorted| && Less(sorted[j], sorted[i])
    ensures j < i
  {
    hide Less;
    LessIrreflexive(sorted[i]);
    if i < j {
      LessTransitive(sorted[i], sorted[j], sorted[i]);
    }
  }

  /** Ascending lists of one set of names are the same list. */
  lemma {:induction false} ListsUnique(a: seq<Coll>, b: seq<Coll>, names: set<Coll>)
    requires Lists(a, names) && Lists(b, names)
    ensures a == b
    decreases |a|
  {
    ListsNothing(a, names);
    ListsNothing(b, names);
    if a != [] {
      FirstIsLeast(a, b, names);
      ListsRest(a, names);
      ListsRest(b, names);
      ListsUnique(a[1..], b[1..], names - {a[0]});
    }
  }

  lemma ListsNothing(a: seq<Coll>, names: set<Coll>)
    requires Lists(a, names)
    ensures a == [] <==> names == {}
  {
    hide Less;
    if a != [] {
      assert a[0] in a && a[0] in names;
    }
  }

  lemma FirstIsLeast(a: seq<Coll>, b: seq<Coll>, names: set<Coll>)
    requires Lists(a, names) && Lists(b, names) && a != [] && b != []
    ensures a[0] == b[0]
  {
    hide Less;
    assert a[0] in b && b[0] in a;
    var i :| 0 <= i < |b| && b[i] == a[0];
    var j :| 0 <= j < |a| && a[j] == b[0];
    if i > 0 && j > 0 {
      LessTransitive(a[0], b[0], a[0]);
      LessIrreflexive(a[0]);
    }
  }

  lemma ListsRest(a: seq<Coll>, names: set<Coll>)
    requires Lists(a, names) && a != []
    ensures Lists(a[1..], names - {a[0]})
  {
    hide Less;
    forall i | 0 <= i < |a[1..]| ensures a[1..][i] != a[0] {
      LessIrreflexive(a[0]);
    }
    forall c ensures c in a[1..] <==> c in names - {a[0]} {
      if c in names && c != a[0] {
        var i :| 0 <= i < |a| && a[i] == c;
        assert a[1..][i - 1] == c;
      }
      if c in a[1..] { assert c in a; }
    }
  }

  lemma {:induction false} OpsGrow(b: Bucket, m: SavedManifest, names: seq<Coll>, i: nat)
    requires i <= |names|
    ensures OpsFor(b, m, names[..i]) <= OpsFor(b, m, names)
    decreases |names|
  {
    hide OneOps;
    if i == |names| {
      assert names[..i] == names;
    } else {
      var n := |names| - 1;
      assert names[..n][..i] == names[..i];
      OpsGrow(b, m, names[..n], i);
    }
  }

  lemma OpsBetween(b: Bucket, m: SavedManifest, names: seq<Coll>, i: nat, j: nat)
    requires i <= j <= |names|
    ensures OpsFor(b, m, names[..i]) <= OpsFor(b, m, names[..j])
  {
    hide OpsFor;
    assert names[..j][..i] == names[..i];
    OpsGrow(b, m, names[..j], i);
  }

  lemma OpsAt(b: Bucket, m: SavedManifest, names: seq<Coll>, i: nat)
    requires i < |names| && names[i] in m.collections
    ensures OpsFor(b, m, names[..i + 1]) == OpsFor(b, m, names[..i]) + OneOps(List(b, m.id, names[i]), m.collections[names[i]])
  {
    hide OpsFor;
    assert names[..i + 1] == names[..i] + [names[i]];
    OpsNext(b, m, names[..i], names[i]);
  }

  /** The first operation that puts something there is not the last one. */
  lemma TraceInTime(backend: BoltBackend, m: SavedManifest, c: Coll)
    requires LeavesTrace(backend.docRefs, backend.objects, m, c)
    ensures c in m.collections
    ensures var refs := List(backend.docRefs, m.id, c); FirstPut(refs) + 1 < OneOps(refs, m.collections[c])
  {
    NoIndexOps(m.collections[c]);
  }

  lemma TouchIs(b: Bucket, m: SavedManifest, collection: Coll, sorted: seq<Coll>, c: Coll, n: nat) returns (j: nat)
    requires Lists(sorted, Chosen(m, collection)) && FirstTouch(b, m, collection, c, n)
    ensures TouchedAt(b, m, sorted, j, c, n)
  {
    var names, i :| Lists(names, Chosen(m, collection)) && TouchedAt(b, m, names, i, c, n);
    hide *;
    ListsUnique(names, sorted, Chosen(m, collection));
    j := i;
  }

  /** If an operation breaks while collection c is being filled, the restore has not got past c. */
  lemma NotPast(w: Wire, backend: BoltBackend, m: SavedManifest, sorted: seq<Coll>, i: nat, target: Target, from: nat,
                now: nat, c: Coll, j: nat, n: nat)
    requires i <= |sorted| && Steady(target, from, now, w, backend, m, sorted[..i])
    requires TouchedAt(backend.docRefs, m, sorted, j, c, n) && LeavesTrace(backend.docRefs, backend.objects, m, c) && target.BreaksAt(from, n)
    ensures i <= j
  {
    if j < i {
      TraceInTime(backend, m, c);
      OpsAt(backend.docRefs, m, sorted, j);
      OpsBetween(backend.docRefs, m, sorted, j + 1, i);
      hide OneOps;
      hide OpsFor;
      hide FirstPut;
      hide LeavesTrace;
      hide Whole;
      assert false;
    }
  }

  lemma PassedAll(w: Wire, backend: BoltBackend, m: SavedManifest, collection: Coll, sorted: seq<Coll>, target: Target,
                  from: nat, now: nat, was: Database, db: Database)
    requires Lists(sorted, Chosen(m, collection)) && Steady(target, from, now, w, backend, m, sorted)
    requires NewLeftBehind(w, backend, m, collection, was, db)
    ensures Accounted(w, backend, m, collection, target, from, now, was, db, true)
  {
    hide NewLeftBehind;
    hide LeftBehind;
    assert sorted[..|sorted|] == sorted;
    forall c, n: nat | BreaksInto(w, backend, m, collection, target, from, c, n) ensures false {
      BreakNeeds(w, backend, m, collection, target, from, c, n);
      var j := TouchIs(backend.docRefs, m, collection, sorted, c, n);
      NotPast(w, backend, m, sorted, |sorted|, target, from, now, c, j, n);
    }
    if Chosen(m, collection) != {} {
      FirstWasFine(w, backend, m, collection, sorted, |sorted|, target, from, now);
    }
  }

  lemma BreakNeeds(w: Wire, backend: BoltBackend, m: SavedManifest, collection: Coll, target: Target, from: nat, c: Coll, n: nat)
    requires BreaksInto(w, backend, m, collection, target, from, c, n)
    ensures FirstTouch(backend.docRefs, m, collection, c, n) && LeavesTrace(backend.docRefs, backend.objects, m, c) && target.BreaksAt(from, n)
    ensures c in Chosen(m, collection)
    ensures forall k :: k in Chosen(m, collection) && Less(k, c) ==> Whole(w, backend.docRefs, backend.objects, m, k)
  {
  }

  lemma FirstWasFine(w: Wire, backend: BoltBackend, m: SavedManifest, collection: Coll, sorted: seq<Coll>, i: nat,
                     target: Target, from: nat, now: nat)
    requires Lists(sorted, Chosen(m, collection)) && 0 < i <= |sorted| && Steady(target, from, now, w, backend, m, sorted[..i])
    ensures target.fate(from).Fine?
  {
    assert sorted[0] in sorted && sorted[0] in Chosen(m, collection);
    OpsAt(backend.docRefs, m, sorted, 0);
    OpsBetween(backend.docRefs, m, sorted, 1, i);
    hide OpsFor;
    assert from < now;
  }

  /** Where the restore stopped, if it was stopped by an operation that broke. */
  lemma StoppedAt(w: Wire, backend: BoltBackend, m: SavedManifest, collection: Coll, sorted: seq<Coll>, i: nat,
                  target: Target, from: nat, now: nat, was: Database, db: Database, clock: nat)
    requires Lists(sorted, Chosen(m, collection)) && i < |sorted| && Steady(target, from, now, w, backend, m, sorted[..i])
    requires sorted[i] in m.collections && NewLeftBehind(w, backend, m, collection, was, db)
    requires StoppedHere(w, backend, m, sorted[i], target, now, db, clock)
    ensures Accounted(w, backend, m, collection, target, from, clock, was, db, false)
  {
    NotCalm(w, backend, m, collection, sorted, i, target, from, now, db, clock);
    forall c, n: nat | BreaksInto(w, backend, m, collection, target, from, c, n) ensures c in db && clock == from + n + 1 {
      hide *;
      BreakStops(w, backend, m, collection, sorted, i, target, from, now, db, clock, c, n);
    }
    hide BreaksInto;
    hide NewLeftBehind;
    hide CanRestore;
    hide StoppedHere;
  }

  lemma NotCalm(w: Wire, backend: BoltBackend, m: SavedManifest, collection: Coll, sorted: seq<Coll>, i: nat, target: Target,
                from: nat, now: nat, db: Database, clock: nat)
    requires Lists(sorted, Chosen(m, collection)) && i < |sorted| && Steady(target, from, now, w, backend, m, sorted[..i])
    requires sorted[i] in m.collections && StoppedHere(w, backend, m, sorted[i], target, now, db, clock)
    ensures !(target.Calm(from) && CanRestore(w, backend, m, collection))
    ensures target.fate(from).Breaks? ==> clock == from + 1
  {
    NextName(sorted, m, collection, i);
    if i > 0 {
      FirstWasFine(w, backend, m, collection, sorted, i, target, from, now);
    } else {
      assert sorted[..0] == [];
    }
    hide Whole;
    hide LeavesTrace;
    hide Lists;
    hide OneOps;
    hide List;
    hide FirstPut;
  }

  lemma BreakStops(w: Wire, backend: BoltBackend, m: SavedManifest, collection: Coll, sorted: seq<Coll>, i: nat,
                   target: Target, from: nat, now: nat, db: Database, clock: nat, c: Coll, n: nat)
    requires Lists(sorted, Chosen(m, collection)) && i < |sorted| && Steady(target, from, now, w, backend, m, sorted[..i])
    requires sorted[i] in m.collections && StoppedHere(w, backend, m, sorted[i], target, now, db, clock)
    requires BreaksInto(w, backend, m, collection, target, from, c, n)
    ensures c in db && clock == from + n + 1
  {
    BreakNeeds(w, backend, m, collection, target, from, c, n);
    hide Less;
    hide Whole;
    hide Lists;
    hide Steady;
    hide BreaksInto;
    hide FirstTouch;
    hide LeavesTrace;
    hide List;
    hide OneOps;
    hide FirstPut;
    hide Chosen;
    var j := TouchIs(backend.docRefs, m, collection, sorted, c, n);
    NotPast(w, backend, m, sorted, i, target, from, now, c, j, n);
    if i < j {
      NotBefore(w, backend, m, collection, sorted, i, target, from, now, c, j, n);
    }
    assert i == j;
    BreaksHere(w, backend, m, sorted, i, target, from, now, c, n);
  }

  lemma NotBefore(w: Wire, backend: BoltBackend, m: SavedManifest, collection: Coll, sorted: seq<Coll>, i: nat,
                  target: Target, from: nat, now: nat, c: Coll, j: nat, n: nat)
    requires Lists(sorted, Chosen(m, collection)) && i < |sorted| && i < j && Steady(target, from, now, w, backend, m, sorted[..i])
    requires TouchedAt(backend.docRefs, m, sorted, j, c, n) && target.BreaksAt(from, n)
    requires forall k :: k in Chosen(m, collection) && Less(k, c) ==> Whole(w, backend.docRefs, backend.objects, m, k)
    ensures sorted[i] in m.collections && Whole(w, backend.docRefs, backend.objects, m, sorted[i])
    ensures target.FineIn(now, now + OneOps(List(backend.docRefs, m.id, sorted[i]), m.collections[sorted[i]]))
  {
    hide Whole;
    hide OneOps;
    hide Less;
    hide FirstPut;
    assert sorted[i] in sorted && sorted[i] in Chosen(m, collection);
    OpsAt(backend.docRefs, m, sorted, i);
    OpsBetween(backend.docRefs, m, sorted, i + 1, j);
    hide OpsFor;
  }

  lemma BreaksHere(w: Wire, backend: BoltBackend, m: SavedManifest, sorted: seq<Coll>, i: nat, target: Target, from: nat,
                   now: nat, c: Coll, n: nat)
    requires i < |sorted| && Steady(target, from, now, w, backend, m, sorted[..i])
    requires TouchedAt(backend.docRefs, m, sorted, i, c, n) && target.BreaksAt(from, n)
    ensures target.BreaksAt(now, FirstPut(List(backend.docRefs, m.id, c)) + 1)
    ensures from + n == now + FirstPut(List(backend.docRefs, m.id, c)) + 1 && c == sorted[i]
  {
    hide Whole;
    hide OpsFor;
    hide FirstPut;
  }

  /** Without a name all collections are chosen, with one at most that one. */
  lemma ChosenAre(sorted: seq<Coll>, m: SavedManifest, collection: Coll)
    requires Lists(sorted, Chosen(m, collection))
    ensures collection == [] ==> Lists(sorted, m.collections.Keys)
    ensures collection != [] ==> forall c :: c in sorted ==> c == collection
    ensures collection != [] ==> sorted == [] || sorted == [collection]
  {
    hide Less;
    assert |sorted| > 1 ==> Less(sorted[0], sorted[1]);
    if collection == [] {
      assert Chosen(m, collection) == m.collections.Keys;
    } else {
      forall i | 0 <= i < |sorted| ensures sorted[i] == collection {
        assert sorted[i] in sorted;
      }
      LessIrreflexive(collection);
    }
  }

  lemma NextName(sorted: seq<Coll>, m: SavedManifest, collection: Coll, i: nat)
    requires i < |sorted| && Lists(sorted, Chosen(m, collection))
    ensures sorted[i] !in sorted[..i] && sorted[i] in m.collections && sorted[i] in Chosen(m, collection)
  {
    LessIrreflexive(sorted[i]);
    assert sorted[i] in sorted;
  }

  lemma NoNames(sorted: seq<Coll>, m: SavedManifest, collection: Coll)
    requires Lists(sorted, Chosen(m, collection))
    ensures collection != [] ==> (sorted == [] <==> collection !in m.collections)
  {
    if collection != [] && collection in m.collections {
      assert collection in Chosen(m, collection);
      assert collection in sorted;
    }
    if sorted != [] {
      assert sorted[0] in sorted;
      assert sorted[0] in Chosen(m, collection);
    }
  }

  lemma ReachedIs(was: Database, now: Database, w: Wire, backend: BoltBackend, m: SavedManifest, names: seq<Coll>, drop: bool)
    requires Reached(was, now, w, backend, m, names, drop)
    ensures forall c :: c in names ==> Done(was, now, w, backend, m, c, drop)
    ensures forall c :: c !in names ==> Unchanged(was, now, c)
    ensures !drop ==> forall c :: Preserved(was, now, c)
  {
  }
}
