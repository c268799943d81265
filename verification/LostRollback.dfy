/** One concrete restore whose rollback succeeds and does not bring the database back: a collection the failed restore
    created stays, and an empty collection that was there is gone. */
module LostRollback {
  import opened ByteStrings
  import opened DocRefs
  import opened BoltStore
  import opened Pipeline
  import opened EndToEnd
  import opened Options
  import opened Restore
  import S = SafeRestore

  const NEW: Bytes := [97]
  const BARE: Bytes := [98]
  const DOC: Bytes := [1]
  const SNAPSHOT: Bytes := [2]
  const SAFETY: Bytes := [3]

  const ONE_DOC: Collection := Collection(map[DOC := DOC], {})
  const TAKEN: Database := map[NEW := ONE_DOC]
  const BEFORE: Database := map[BARE := Collection(map[], {})]

  /** Bytes are their own hash, their own compression and their own _id. */
  const PLAIN: Wire := Wire(Codec((x: Bytes) => x, (x: Bytes) => x, (x: Bytes) => x), (x: Bytes) => x)

  /** The only operation that fails is the first insert: a read for the safety snapshot, a drop and three reads come first. */
  const INSERT: nat := 5

  lemma PlainIsFine()
    ensures PLAIN.codec.Sound() && PLAIN.codec.Filed(map[]) && S.Storable(PLAIN, TAKEN) && S.Storable(PLAIN, BEFORE)
    ensures NulFree(SNAPSHOT) && NulFree(SAFETY) && forall id, c :: Unwritten(map[], id, c)
  {
  }

  lemma StoredWhole(store: BoltBackend, m: SavedManifest)
    requires S.Covers(PLAIN, store.docRefs, store.objects, m, TAKEN)
    ensures |List(store.docRefs, m.id, NEW)| == 1 && Chosen(m, []) == {NEW}
    ensures Whole(PLAIN, store.docRefs, store.objects, m, NEW)
  {
    PlainIsFine();
    hide Records;
    hide List;
    hide Whole;
    hide S.Storable;
    hide Codec.Sound;
    assert S.Holds(PLAIN, store.docRefs, store.objects, m, NEW, TAKEN[NEW]);
    assert Chosen(m, []) == {NEW};
    S.CoveredCanRestore(PLAIN, store, m, TAKEN);
    S.RecordedSize(PLAIN, store.docRefs, store.objects, m.id, NEW, TAKEN[NEW].docs);
  }

  /** With the snapshot stored, the insert is the first operation to put something into the new collection. */
  lemma InsertIsFirst(store: BoltBackend, m: SavedManifest, target: Target)
    requires S.Covers(PLAIN, store.docRefs, store.objects, m, TAKEN)
    requires target.fate == ((k: nat) => if k == INSERT then Breaks(1) else Fine)
    ensures BreaksInto(PLAIN, store, m, [], target, 1, NEW, INSERT - 1)
  {
    StoredWhole(store, m);
    hide List;
    hide Explicit;
    hide Compatible;
    hide DistinctDocs;
    hide S.Covers;
    LessIrreflexive(NEW);
    assert LeftBehind(PLAIN, store.docRefs, store.objects, m, [], NEW);
    hide LeftBehind;
    assert Lists([NEW], Chosen(m, []));
    assert [NEW][..0] == [];
    assert TouchedAt(store.docRefs, m, [NEW], 0, NEW, INSERT - 1);
  }

  /** The database before and after. */
  method Run() returns (before: Database, after: Database, rolledBack: bool)
    ensures rolledBack && before != after
    ensures BARE in before && BARE !in after && NEW !in before && NEW in after
  {
    hide *;
    PlainIsFine();
    var store := new BoltBackend();
    var safe := new BoltBackend();
    var origin := new Target(TAKEN, (k: nat) => Fine);
    NothingFails(origin);
    var m, taken := S.Create(PLAIN, store, SNAPSHOT, origin, [], 1000);
    var target := new Target(BEFORE, (k: nat) => if k == INSERT then Breaks(1) else Fine);
    before := target.db;
    OnlyTheInsert(target);
    var r, ok;
    ghost var mid, since, undo;
    r, ok, rolledBack, mid, since, undo := S.RestoreWithSafety(PLAIN, store, m, target, RestoreOptions([], true), safe, SAFETY,
                                                               [], 1000);
    after := target.db;
    InsertIsFirst(store, m, target);
    S.BreakTriggers(PLAIN, store, m, [], target, 1, rolledBack, mid, NEW, INSERT - 1);
    Outcome(mid, after);
  }

  lemma NothingFails(target: Target)
    requires target.fate == ((k: nat) => Fine)
    ensures forall a, b :: target.FineIn(a, b)
  {
  }

  lemma OnlyTheInsert(target: Target)
    requires target.fate == ((k: nat) => if k == INSERT then Breaks(1) else Fine)
    ensures target.FineIn(0, |BEFORE|) && target.Calm(INSERT + 1) && |BEFORE| == 1 && INSERT == 5
  {
  }

  lemma Outcome(mid: Database, after: Database)
    requires S.RolledBack(BEFORE, mid, after) && NEW in mid
    ensures BARE in BEFORE && BARE !in after && NEW !in BEFORE && NEW in after
  {
    assert Look(after, BARE) == None;
    assert Unchanged(mid, after, NEW);
  }
}
