/** The bbolt backend: content-addressed objects and chunked doc-ref lists under byte-ordered keys. */
module BoltStore {
  import opened ByteStrings
  import opened Decimals
  import opened DocRefs
  import opened Permutations
  import ExtSort

  const DOC_REF_CHUNK_SIZE: nat := 5000

  /** Chunk numbers are printed with "%06d". */
  const CHUNK_DIGITS: nat := 6
  const MAX_CHUNKS: nat := 1_000_000

  /** The "docrefs" bucket: key to chunk. */
  type Bucket = map<Bytes, seq<DocRef>>

  function CollectionPrefix(id: Bytes, coll: Bytes): Bytes
  {
    ManifestPrefix(id) + coll + [0]
  }

  function ManifestPrefix(id: Bytes): Bytes
  {
    id + [0]
  }

  function ChunkKey(id: Bytes, coll: Bytes, chunk: nat): Bytes
  {
    CollectionPrefix(id, coll) + Padded(chunk, CHUNK_DIGITS)
  }

  /** UUIDs, and the names MongoDB and SQL engines allow. */
  predicate NulFree(s: Bytes)
  {
    forall i :: 0 <= i < |s| ==> s[i] != 0
  }

  function WithPrefix(b: Bucket, p: Bytes): set<Bytes>
  {
    set k | k in b && HasPrefix(k, p)
  }

  /** The chunks under the given keys, joined in key order. */
  function Joined(b: Bucket, keys: set<Bytes>): seq<DocRef>
    requires keys <= b.Keys
    decreases |keys|
  {
    if keys == {} then []
    else
      var k := Least(keys);
      b[k] + Joined(b, keys - {k})
  }

  /** What reading a collection's doc refs back means: every chunk with its prefix, in key order. */
  function List(b: Bucket, id: Bytes, coll: Bytes): seq<DocRef>
  {
    Joined(b, WithPrefix(b, CollectionPrefix(id, coll)))
  }

  // ---- Keys ----

  lemma FirstNul(a: Bytes, b: Bytes, x: Bytes, k: Bytes)
    requires NulFree(a) && NulFree(b)
    requires HasPrefix(k, x + a + [0]) && HasPrefix(k, x + b + [0])
    ensures a == b
  {
    assert forall i :: 0 <= i < |a| ==> k[|x| + i] == (x + a + [0])[|x| + i] == a[i];
    assert forall i :: 0 <= i < |b| ==> k[|x| + i] == (x + b + [0])[|x| + i] == b[i];
    assert k[|x| + |a|] == (x + a + [0])[|x| + |a|] == 0;
    assert k[|x| + |b|] == (x + b + [0])[|x| + |b|] == 0;
  }

  /** A key lies under at most one manifest, and under at most one of its collections. */
  lemma PrefixesDisjoint(k: Bytes, id: Bytes, coll: Bytes, id': Bytes, coll': Bytes)
    requires NulFree(id) && NulFree(coll) && NulFree(id') && NulFree(coll')
    ensures HasPrefix(k, ManifestPrefix(id)) && HasPrefix(k, ManifestPrefix(id')) ==> id == id'
    ensures HasPrefix(k, CollectionPrefix(id, coll)) ==> HasPrefix(k, ManifestPrefix(id))
    ensures HasPrefix(k, CollectionPrefix(id, coll)) && HasPrefix(k, CollectionPrefix(id', coll')) ==> id == id' && coll == coll'
  {
    hide Less;
    CollectionUnderManifest(k, id, coll);
    CollectionUnderManifest(k, id', coll');
    if HasPrefix(k, ManifestPrefix(id)) && HasPrefix(k, ManifestPrefix(id')) {
      assert [] + id + [0] == ManifestPrefix(id) && [] + id' + [0] == ManifestPrefix(id');
      FirstNul(id, id', [], k);
      if HasPrefix(k, CollectionPrefix(id, coll)) && HasPrefix(k, CollectionPrefix(id', coll')) {
        FirstNul(coll, coll', ManifestPrefix(id), k);
      }
    }
  }

  lemma CollectionUnderManifest(k: Bytes, id: Bytes, coll: Bytes)
    ensures HasPrefix(k, CollectionPrefix(id, coll)) ==> HasPrefix(k, ManifestPrefix(id))
  {
  }

  lemma ChunkKeyPrefix(id: Bytes, coll: Bytes, n: nat)
    ensures HasPrefix(ChunkKey(id, coll, n), CollectionPrefix(id, coll))
  {
  }

  lemma ChunkKeyInjective(id: Bytes, coll: Bytes, m: nat, n: nat)
    requires ChunkKey(id, coll, m) == ChunkKey(id, coll, n)
    ensures m == n
  {
    var p := CollectionPrefix(id, coll);
    assert ChunkKey(id, coll, m)[|p|..] == Padded(m, CHUNK_DIGITS);
    assert ChunkKey(id, coll, n)[|p|..] == Padded(n, CHUNK_DIGITS);
    PaddedInjective(m, n, CHUNK_DIGITS);
  }

  /** Byte order of chunk keys is chunk order, up to the millionth chunk... */
  lemma ChunkKeyOrder(id: Bytes, coll: Bytes, m: nat, n: nat)
    requires m < n < MAX_CHUNKS
    ensures Less(ChunkKey(id, coll, m), ChunkKey(id, coll, n))
  {
    PaddedOrderBreaks();
    PaddedOrder(m, n, CHUNK_DIGITS);
    LessAppend(CollectionPrefix(id, coll), Padded(m, CHUNK_DIGITS), Padded(n, CHUNK_DIGITS));
  }

  /** ...and no further. */
  lemma ChunkKeyOrderBreaks(id: Bytes, coll: Bytes)
    ensures Less(ChunkKey(id, coll, MAX_CHUNKS), ChunkKey(id, coll, 100_001))
  {
    PaddedOrderBreaks();
    LessAppend(CollectionPrefix(id, coll), Padded(MAX_CHUNKS, CHUNK_DIGITS), Padded(100_001, CHUNK_DIGITS));
  }

  // ---- Joined ----

  lemma LeastUnique(s: set<Bytes>, m: Bytes)
    requires m in s && forall x :: x in s ==> Leq(m, x)
    ensures Least(s) == m
  {
    hide Less;
    var k := Least(s);
    LessTotal(k, m);
  }

  lemma {:induction false} JoinedAgrees(b: Bucket, b': Bucket, keys: set<Bytes>)
    requires keys <= b.Keys && keys <= b'.Keys
    requires forall k :: k in keys ==> b[k] == b'[k]
    ensures Joined(b, keys) == Joined(b', keys)
    decreases |keys|
  {
    if keys != {} {
      JoinedAgrees(b, b', keys - {Least(keys)});
    }
  }

  lemma {:induction false} JoinedSnoc(b: Bucket, keys: set<Bytes>, k: Bytes)
    requires keys <= b.Keys && k in b && k !in keys
    requires forall x :: x in keys ==> Leq(x, k)
    ensures Joined(b, keys + {k}) == Joined(b, keys) + b[k]
    decreases |keys|
  {
    hide Less;
    if keys == {} {
      LessIrreflexive(k);
      LeastUnique({k}, k);
      assert keys + {k} == {k} && {k} - {k} == {};
      assert Joined(b, {}) == [];
    } else {
      var m := Least(keys);
      LeastUnique(keys + {k}, m);
      JoinedSnoc(b, keys - {m}, k);
      assert keys + {k} - {m} == keys - {m} + {k};
    }
  }

  /** Chunks appear in the joined list in key order. */
  lemma {:induction false} JoinedOrder(b: Bucket, keys: set<Bytes>, k: Bytes, k': Bytes) returns (p: nat, p': nat)
    requires keys <= b.Keys && k in keys && k' in keys && Less(k, k')
    requires b[k] != [] && b[k'] != []
    ensures p < p' < |Joined(b, keys)|
    ensures Joined(b, keys)[p] == b[k][0] && Joined(b, keys)[p'] == b[k'][0]
    decreases |keys|
  {
    hide Less;
    LessAsymmetric(k, k');
    LessIrreflexive(k);
    var m := Least(keys);
    if m == k {
      var q := JoinedHas(b, keys - {m}, k');
      p, p' := 0, |b[m]| + q;
    } else {
      var q, q' := JoinedOrder(b, keys - {m}, k, k');
      p, p' := |b[m]| + q, |b[m]| + q';
    }
  }

  lemma {:induction false} JoinedHas(b: Bucket, keys: set<Bytes>, k: Bytes) returns (p: nat)
    requires keys <= b.Keys && k in keys && b[k] != []
    ensures p < |Joined(b, keys)| && Joined(b, keys)[p] == b[k][0]
    decreases |keys|
  {
    var m := Least(keys);
    if m == k {
      p := 0;
    } else {
      var q := JoinedHas(b, keys - {m}, k);
      p := |b[m]| + q;
    }
  }

  // ---- Writing ----

  /** The bucket after storing `refs` in chunks numbered from `i`. */
  function PutChunks(b: Bucket, id: Bytes, coll: Bytes, refs: seq<DocRef>, size: nat, i: nat): Bucket
    requires size > 0
    decreases |refs|
  {
    if refs == [] then b
    else
      var n := if |refs| < size then |refs| else size;
      PutChunks(b[ChunkKey(id, coll, i) := refs[..n]], id, coll, refs[n..], size, i + 1)
  }

  /** Exactly the first `i` chunks of the list are stored. */
  ghost predicate HoldsChunks(b: Bucket, id: Bytes, coll: Bytes, i: nat)
  {
    forall k :: k in WithPrefix(b, CollectionPrefix(id, coll)) <==> exists j :: 0 <= j < i && k == ChunkKey(id, coll, j)
  }

  lemma PutOne(b: Bucket, id: Bytes, coll: Bytes, chunk: seq<DocRef>, i: nat)
    requires HoldsChunks(b, id, coll, i) && i < MAX_CHUNKS
    ensures var b' := b[ChunkKey(id, coll, i) := chunk];
      HoldsChunks(b', id, coll, i + 1) && List(b', id, coll) == List(b, id, coll) + chunk
  {
    hide Less;
    hide Padded;
    var k := ChunkKey(id, coll, i);
    var p := CollectionPrefix(id, coll);
    var b' := b[k := chunk];
    ChunkKeyPrefix(id, coll, i);
    var keys := WithPrefix(b, p);
    assert WithPrefix(b', p) == keys + {k};
    forall x | x in keys ensures Less(x, k) {
      var j :| 0 <= j < i && x == ChunkKey(id, coll, j);
      ChunkKeyOrder(id, coll, j, i);
    }
    LessIrreflexive(k);
    forall x | x in keys ensures Leq(x, k) {
      LessAsymmetric(x, k);
    }
    JoinedAgrees(b, b', keys);
    JoinedSnoc(b', keys, k);
  }

  lemma {:induction false} PutChunksList(b: Bucket, id: Bytes, coll: Bytes, refs: seq<DocRef>, size: nat, i: nat)
    requires size > 0 && HoldsChunks(b, id, coll, i)
    requires i <= MAX_CHUNKS && |refs| <= (MAX_CHUNKS - i) * size
    ensures List(PutChunks(b, id, coll, refs, size, i), id, coll) == List(b, id, coll) + refs
    decreases |refs|
  {
    hide List;
    if refs == [] {
      assert List(b, id, coll) + refs == List(b, id, coll);
    } else {
      var n := if |refs| < size then |refs| else size;
      assert i < MAX_CHUNKS;
      assert (MAX_CHUNKS - i) * size == size + (MAX_CHUNKS - (i + 1)) * size;
      PutOne(b, id, coll, refs[..n], i);
      PutChunksList(b[ChunkKey(id, coll, i) := refs[..n]], id, coll, refs[n..], size, i + 1);
      assert refs == refs[..n] + refs[n..];
    }
  }

  lemma {:induction false} PutChunksKeeps(b: Bucket, id: Bytes, coll: Bytes, refs: seq<DocRef>, size: nat, i: nat, k: Bytes)
    requires size > 0
    requires forall j :: i <= j ==> k != ChunkKey(id, coll, j)
    ensures k in PutChunks(b, id, coll, refs, size, i) <==> k in b
    ensures k in b ==> PutChunks(b, id, coll, refs, size, i)[k] == b[k]
    decreases |refs|
  {
    if refs != [] {
      var n := if |refs| < size then |refs| else size;
      PutChunksKeeps(b[ChunkKey(id, coll, i) := refs[..n]], id, coll, refs[n..], size, i + 1, k);
    }
  }

  lemma Multiples(n: nat, size: nat)
    ensures (n + 1) * size == size + n * size && n * size >= 0
  {
  }

  /** Chunk i + n starts with the ref at position n * size. */
  lemma {:induction false} PutChunksAt(b: Bucket, id: Bytes, coll: Bytes, refs: seq<DocRef>, size: nat, i: nat, n: nat, at: nat)
    requires size > 0 && at == n * size && at < |refs|
    ensures var b' := PutChunks(b, id, coll, refs, size, i); var k := ChunkKey(id, coll, i + n);
      k in b' && b'[k] != [] && b'[k][0] == refs[at]
    decreases |refs|
  {
    hide ChunkKey;
    var m := if |refs| < size then |refs| else size;
    var b1 := b[ChunkKey(id, coll, i) := refs[..m]];
    if n == 0 {
      forall j: nat | i + 1 <= j ensures ChunkKey(id, coll, i) != ChunkKey(id, coll, j) {
        if ChunkKey(id, coll, i) == ChunkKey(id, coll, j) { ChunkKeyInjective(id, coll, i, j); }
      }
      PutChunksKeeps(b1, id, coll, refs[m..], size, i + 1, ChunkKey(id, coll, i));
    } else {
      Multiples(n - 1, size);
      PutChunksAt(b1, id, coll, refs[m..], size, i + 1, n - 1, at - size);
    }
  }

  /** No other collection's list changes. */
  lemma PutChunksOthers(b: Bucket, id: Bytes, coll: Bytes, refs: seq<DocRef>, size: nat, id': Bytes, coll': Bytes)
    requires size > 0 && NulFree(id) && NulFree(coll) && NulFree(id') && NulFree(coll')
    requires id != id' || coll != coll'
    ensures List(PutChunks(b, id, coll, refs, size, 0), id', coll') == List(b, id', coll')
    ensures WithPrefix(PutChunks(b, id, coll, refs, size, 0), CollectionPrefix(id', coll')) == WithPrefix(b, CollectionPrefix(id', coll'))
  {
    hide Less;
    hide Padded;
    hide PutChunks;
    var b' := PutChunks(b, id, coll, refs, size, 0);
    var p' := CollectionPrefix(id', coll');
    forall k | HasPrefix(k, p')
      ensures k in b' <==> k in b
      ensures k in b ==> b'[k] == b[k]
    {
      forall j: nat ensures k != ChunkKey(id, coll, j) {
        ChunkKeyPrefix(id, coll, j);
        PrefixesDisjoint(k, id, coll, id', coll');
      }
      PutChunksKeeps(b, id, coll, refs, size, 0, k);
    }
    assert WithPrefix(b', p') == WithPrefix(b, p');
    JoinedAgrees(b, b', WithPrefix(b, p'));
  }

  /** Writing a collection's refs under a fresh key prefix and reading them back gives the same list, exactly
      as long as the chunks fit "%06d": for 5000 refs a chunk, up to 5,000,000,000 refs. */
  lemma WriteThenRead(b: Bucket, id: Bytes, coll: Bytes, refs: seq<DocRef>, size: nat)
    requires size > 0 && WithPrefix(b, CollectionPrefix(id, coll)) == {}
    requires StrictlySorted(refs)
    ensures List(PutChunks(b, id, coll, refs, size, 0), id, coll) == refs <==> |refs| <= MAX_CHUNKS * size
  {
    hide Less;
    hide Padded;
    if |refs| <= MAX_CHUNKS * size {
      assert HoldsChunks(b, id, coll, 0);
      PutChunksList(b, id, coll, refs, size, 0);
    } else {
      TooManyChunks(b, id, coll, refs, size);
    }
  }

  lemma TooManyChunks(b: Bucket, id: Bytes, coll: Bytes, refs: seq<DocRef>, size: nat)
    requires size > 0 && StrictlySorted(refs)
    requires |refs| > MAX_CHUNKS * size
    ensures List(PutChunks(b, id, coll, refs, size, 0), id, coll) != refs
  {
    hide Less;
    hide PutChunks;
    hide Padded;
    hide Joined;
    assert 100_001 * size < MAX_CHUNKS * size;
    PutChunksAt(b, id, coll, refs, size, 0, 100_001, 100_001 * size);
    PutChunksAt(b, id, coll, refs, size, 0, MAX_CHUNKS, MAX_CHUNKS * size);
    var b' := PutChunks(b, id, coll, refs, size, 0);
    var k, k' := ChunkKey(id, coll, MAX_CHUNKS), ChunkKey(id, coll, 100_001);
    ChunkKeyOrderBreaks(id, coll);
    ChunkKeyPrefix(id, coll, MAX_CHUNKS);
    ChunkKeyPrefix(id, coll, 100_001);
    var p, p' := JoinedOrder(b', WithPrefix(b', CollectionPrefix(id, coll)), k, k');
    if List(b', id, coll) == refs {
      LessAsymmetric(refs[p].id, refs[p'].id);
    }
  }

  // ---- Deleting ----

  function WithoutManifest(b: Bucket, id: Bytes): Bucket
  {
    map k | k in b && !HasPrefix(k, ManifestPrefix(id)) :: b[k]
  }

  /** Deleting a manifest's doc refs empties all its lists and changes no other manifest's. */
  lemma DeleteThenRead(b: Bucket, id: Bytes, id': Bytes, coll: Bytes)
    requires NulFree(id) && NulFree(id') && NulFree(coll)
    ensures List(WithoutManifest(b, id), id', coll) == if id == id' then [] else List(b, id', coll)
  {
    hide Less;
    var b' := WithoutManifest(b, id);
    var p := CollectionPrefix(id', coll);
    forall k | k in b && HasPrefix(k, p)
      ensures k in b' <==> id != id'
    {
      PrefixesDisjoint(k, id, coll, id', coll);
      PrefixesDisjoint(k, id', coll, id, coll);
    }
    if id == id' {
      assert WithPrefix(b', p) == {};
    } else {
      assert WithPrefix(b', p) == WithPrefix(b, p);
      JoinedAgrees(b, b', WithPrefix(b, p));
    }
  }

  // ---- The backend ----

  datatype EncodedObject = EncodedObject(hash: Hash, compressed: Bytes)

  /** A position of a bbolt cursor. */
  datatype Cursor = Unset | At(key: Bytes) | End

  /** The first of the given keys, which is where Seek and Next land. */
  function FirstOf(keys: set<Bytes>): Cursor
  {
    if keys == {} then End else At(Least(keys))
  }

  /** The keys Seek(p) may land on, and those Next may land on from `c`. */
  function KeysFrom(b: Bucket, p: Bytes): set<Bytes>
  {
    set k | k in b && Leq(p, k)
  }

  function KeysAfter(b: Bucket, c: Cursor): set<Bytes>
  {
    if c.At? then set k | k in b && Less(c.key, k) else {}
  }

  lemma CursorAdvances(b: Bucket, c: Cursor)
    requires c.At?
    ensures var d := FirstOf(KeysAfter(b, c));
      && (forall k :: k in b && Less(c.key, k) ==> d.At? && Leq(d.key, k))
      && (d.At? ==> d.key in b && Less(c.key, d.key) && |KeysAfter(b, d)| < |KeysAfter(b, c)|)
  {
    hide Less;
    var d := FirstOf(KeysAfter(b, c));
    forall k | k in b && Less(c.key, k) ensures d.At? && Leq(d.key, k) {
      assert k in KeysAfter(b, c);
    }
    if d.At? {
      forall k | k in KeysAfter(b, d) ensures k in KeysAfter(b, c) && k != d.key {
        LessTransitive(c.key, d.key, k);
        LessIrreflexive(k);
      }
      assert KeysAfter(b, d) <= KeysAfter(b, c) - {d.key};
      SubsetSize(KeysAfter(b, d), KeysAfter(b, c) - {d.key});
    }
  }

  lemma CursorOrder(p: Bytes, c: Cursor, d: Cursor)
    requires c.At? && Leq(p, c.key)
    ensures d.At? && Less(c.key, d.key) ==> Leq(p, d.key)
  {
    if d.At? && Less(c.key, d.key) {
      LessAsymmetric(c.key, d.key);
      LeqTransitive(p, c.key, d.key);
    }
  }

  function HashSet(items: seq<EncodedObject>): set<Hash>
  {
    set item | item in items :: item.hash
  }

  /** What storing `items` turns `before` into: old content stays, every hash is there, nothing else is. */
  ghost predicate Stored(before: map<Hash, Bytes>, items: seq<EncodedObject>, after: map<Hash, Bytes>)
  {
    && after.Keys == before.Keys + HashSet(items)
    && (forall h :: h in before ==> after[h] == before[h])
    && (forall h :: h in after && h !in before ==> EncodedObject(h, after[h]) in items)
  }

  lemma StoredNothing(before: map<Hash, Bytes>)
    ensures Stored(before, [], before)
  {
  }

  lemma StoredOne(before: map<Hash, Bytes>, items: seq<EncodedObject>, now: map<Hash, Bytes>, item: EncodedObject)
    requires Stored(before, items, now)
    ensures Stored(before, items + [item], if item.hash in now then now else now[item.hash := item.compressed])
  {
  }

  lemma StoredThen(before: map<Hash, Bytes>, a: seq<EncodedObject>, mid: map<Hash, Bytes>, b: seq<EncodedObject>,
                   after: map<Hash, Bytes>)
    requires Stored(before, a, mid) && Stored(mid, b, after)
    ensures Stored(before, a + b, after)
  {
  }

  /** boltBackend: `objects` and `docRefs` are its two buckets. */
  class BoltBackend {
    var objects: map<Hash, Bytes>
    var docRefs: Bucket

    constructor ()
      ensures objects == map[] && docRefs == map[]
    {
      objects, docRefs := map[], map[];
    }

    /** Store a batch, skipping hashes already there; newCount is what the key set gained. */
    method PutMany(items: seq<EncodedObject>) returns (newCount: nat)
      modifies `objects
      ensures Stored(old(objects), items, objects)
      ensures newCount == |objects.Keys| - |old(objects.Keys)|
    {
      hide *;
      newCount := 0;
      StoredNothing(objects);
      assert items[..0] == [];
      for i := 0 to |items|
        invariant Stored(old(objects), items[..i], objects)
        invariant newCount == |objects.Keys| - |old(objects.Keys)|
      {
        assert items[..i + 1] == items[..i] + [items[i]];
        StoredOne(old(objects), items[..i], objects, items[i]);
        if items[i].hash !in objects {
          ghost var was := objects.Keys;
          objects := objects[items[i].hash := items[i].compressed];
          assert objects.Keys == was + {items[i].hash};
          newCount := newCount + 1;
        }
      }
      assert items[..|items|] == items;
    }

    /** Drain the iterator, storing one chunk whenever `docRefChunkSize` refs have gathered. */
    method WriteDocRefs(id: Bytes, coll: Bytes, refs: ExtSort.SliceIterator)
      requires refs.Valid()
      modifies `docRefs, refs
      ensures docRefs == PutChunks(old(docRefs), id, coll, old(refs.Pending()), DOC_REF_CHUNK_SIZE, 0)
    {
      hide ChunkKey;
      var chunk: seq<DocRef> := [];
      var chunkIdx := 0;
      ghost var all := PutChunks(docRefs, id, coll, refs.Pending(), DOC_REF_CHUNK_SIZE, 0);
      assert [] + refs.Pending() == refs.Pending();
      while true
        invariant refs.Valid() && |chunk| < DOC_REF_CHUNK_SIZE
        invariant PutChunks(docRefs, id, coll, chunk + refs.Pending(), DOC_REF_CHUNK_SIZE, chunkIdx) == all
        decreases |refs.Pending()|
      {
        ghost var left := chunk + refs.Pending();
        var ref, ok := refs.Next();
        if !ok {
          assert left == chunk;
          break;
        }
        chunk := chunk + [ref];
        assert chunk + refs.Pending() == left;
        if |chunk| >= DOC_REF_CHUNK_SIZE {
          assert left[..DOC_REF_CHUNK_SIZE] == chunk && left[DOC_REF_CHUNK_SIZE..] == refs.Pending();
          docRefs := docRefs[ChunkKey(id, coll, chunkIdx) := chunk];
          chunkIdx := chunkIdx + 1;
          chunk := [];
          assert [] + refs.Pending() == refs.Pending();
        }
      }
      if |chunk| > 0 {
        assert chunk[..|chunk|] == chunk && chunk[|chunk|..] == [];
        docRefs := docRefs[ChunkKey(id, coll, chunkIdx) := chunk];
      }
    }

    /** Collect the manifest's keys with a cursor from its prefix on, then delete them. */
    method DeleteDocRefs(id: Bytes)
      modifies `docRefs
      ensures docRefs == WithoutManifest(old(docRefs), id)
    {
      hide Less;
      var prefix := ManifestPrefix(id);
      var keys: set<Bytes> := {};
      var c := FirstOf(KeysFrom(docRefs, prefix));
      forall k | k in WithPrefix(docRefs, prefix) ensures Leq(prefix, k) {
        PrefixIsLeast(prefix, k);
      }
      while c.At? && HasPrefix(c.key, prefix)
        invariant docRefs == old(docRefs)
        invariant c.At? ==> c.key in docRefs && Leq(prefix, c.key)
        invariant keys <= WithPrefix(docRefs, prefix)
        invariant forall k :: k in WithPrefix(docRefs, prefix) && k !in keys ==> c.At? && Leq(c.key, k)
        decreases if c.At? then |KeysAfter(docRefs, c)| + 1 else 0
      {
        keys := keys + {c.key};
        CursorAdvances(docRefs, c);
        CursorOrder(prefix, c, FirstOf(KeysAfter(docRefs, c)));
        forall k | k in docRefs && Leq(c.key, k) && k != c.key ensures Less(c.key, k) {
          LessTotal(c.key, k);
        }
        c := FirstOf(KeysAfter(docRefs, c));
      }
      forall k | k in WithPrefix(docRefs, prefix) ensures k in keys {
        if k !in keys {
          LessIrreflexive(prefix);
          PrefixInterval(prefix, prefix, c.key, k);
        }
      }
      assert keys == WithPrefix(docRefs, prefix);
      var was := docRefs;
      docRefs := map k | k in was && k !in keys :: was[k];
    }
  }

  /** boltDocRefIterator: it reads the bucket as it was when its transaction began. */
  class BoltDocRefIterator {
    const bucket: Bucket
    const prefix: Bytes
    var cursor: Cursor
    var current: seq<DocRef>
    var pos: nat

    ghost predicate Valid()
      reads this
    {
      && pos <= |current|
      && (cursor.At? ==> Leq(prefix, cursor.key))
    }

    /** The keys of the list the cursor has yet to reach. */
    ghost function Ahead(): set<Bytes>
      reads this
    {
      AheadOf(bucket, prefix, cursor)
    }

    /** The refs still to come. */
    ghost function Pending(): seq<DocRef>
      reads this
      requires Valid()
    {
      current[pos..] + Joined(bucket, Ahead())
    }

    /** IterDocRefs. */
    constructor (bucket: Bucket, id: Bytes, coll: Bytes)
      ensures Valid() && Pending() == List(bucket, id, coll)
    {
      this.bucket, prefix := bucket, CollectionPrefix(id, coll);
      cursor, current, pos := Unset, [], 0;
    }

    /** Seek on the first call, Next after that. */
    method MoveCursor() returns (more: bool)
      requires Valid() && pos == |current|
      modifies this
      ensures Valid() && Pending() == old(Pending())
      ensures more ==> |Ahead()| < |old(Ahead())|
      ensures !more ==> Pending() == [] && pos == |current|
    {
      hide Less;
      ghost var was := Ahead();
      var next := FirstOf(if cursor.Unset? then KeysFrom(bucket, prefix) else KeysAfter(bucket, cursor));
      NextInList(bucket, prefix, cursor, next);
      more := next.At? && HasPrefix(next.key, prefix);
      cursor := next;
      if more {
        assert Ahead() == was - {next.key};
        LeastUnique(was, next.key);
        current, pos := bucket[next.key], 0;
      }
    }

    method Next() returns (ref: DocRef, ok: bool)
      requires Valid()
      modifies this
      ensures Valid()
      ensures ok <==> old(Pending()) != []
      ensures ok ==> ref == old(Pending())[0] && Pending() == old(Pending())[1..]
      ensures !ok ==> Pending() == []
    {
      hide Less;
      hide HasPrefix;
      while pos >= |current|
        invariant Valid() && Pending() == old(Pending())
        decreases |Ahead()|
      {
        var more := MoveCursor();
        if !more {
          return DocRef([], []), false;
        }
      }
      ref, ok, pos := current[pos], true, pos + 1;
    }
  }

  /** What `c` still has ahead of it in the list under `prefix`. */
  ghost function AheadOf(b: Bucket, prefix: Bytes, c: Cursor): set<Bytes>
  {
    if c.Unset? then WithPrefix(b, prefix) else WithPrefix(b, prefix) * KeysAfter(b, c)
  }

  /** A list's keys are one stretch of the bucket: the next key either continues it or ends it. */
  lemma NextInList(b: Bucket, prefix: Bytes, c: Cursor, d: Cursor)
    requires c.At? ==> Leq(prefix, c.key)
    requires d == FirstOf(if c.Unset? then KeysFrom(b, prefix) else KeysAfter(b, c))
    ensures d.At? ==> d.key in b && Leq(prefix, d.key)
    ensures d.At? && HasPrefix(d.key, prefix) ==>
      d.key in AheadOf(b, prefix, c) && AheadOf(b, prefix, d) == AheadOf(b, prefix, c) - {d.key}
      && forall k :: k in AheadOf(b, prefix, c) ==> Leq(d.key, k)
    ensures !(d.At? && HasPrefix(d.key, prefix)) ==> AheadOf(b, prefix, c) == {} && AheadOf(b, prefix, d) == {}
  {
    hide Less;
    if c.At? && d.At? {
      CursorOrder(prefix, c, d);
    }
    forall k | k in AheadOf(b, prefix, c)
      ensures d.At? && Leq(d.key, k) && HasPrefix(d.key, prefix)
    {
      PrefixIsLeast(prefix, k);
      LessIrreflexive(prefix);
      PrefixInterval(prefix, prefix, d.key, k);
    }
    if d.At? {
      forall k | k in b && HasPrefix(k, prefix)
        ensures k in AheadOf(b, prefix, d) <==> k in AheadOf(b, prefix, c) && k != d.key
      {
        PrefixIsLeast(prefix, k);
        LessIrreflexive(k);
        LessTotal(d.key, k);
        if c.At? && Less(c.key, d.key) && Less(d.key, k) { LessTransitive(c.key, d.key, k); }
      }
    }
  }

  /** drainDocRefIterator over the bolt iterator: exactly the list that is stored. */
  method DrainStored(it: BoltDocRefIterator) returns (out: seq<DocRef>)
    requires it.Valid()
    modifies it
    ensures out == old(it.Pending())
  {
    hide Less;
    out := [];
    var more := true;
    while more
      invariant it.Valid() && out + it.Pending() == old(it.Pending())
      invariant !more ==> it.Pending() == []
      decreases |it.Pending()|, more
    {
      var ref, ok := it.Next();
      more := ok;
      if ok {
        out := out + [ref];
      }
    }
  }
}
