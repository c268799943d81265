/** One concrete run in which an interrupted pass leaves a snapshot that a rerun keeps and then cannot mark. */
module StuckPass {
  import opened ByteStrings
  import opened DocRefs
  import opened Permutations
  import opened Scope
  import opened Options
  import opened Protocol
  import opened Lifecycle
  import opened Durability

  /** There is a run from `w` to `w'`. */
  ghost predicate Reaches(w: World, w': World)
  {
    exists steps :: IsRun(w, steps) && Final(w, steps) == w'
  }

  lemma {:induction false} RunThen(w: World, steps: seq<Step>, step: Step)
    requires IsRun(w, steps) && Enabled(Final(w, steps), step)
    ensures IsRun(w, steps + [step]) && Final(w, steps + [step]) == Apply(Final(w, steps), step)
    decreases |steps|
  {
    hide Enabled;
    hide Apply;
    if steps == [] {
      assert [step][1..] == [];
      assert steps + [step] == [step];
    } else {
      assert (steps + [step])[1..] == steps[1..] + [step];
      RunThen(Apply(w, steps[0]), steps[1..], step);
    }
  }

  lemma OneMore(w: World, mid: World, step: Step, w': World)
    requires Reaches(w, mid) && Enabled(mid, step) && Apply(mid, step) == w'
    ensures Reaches(w, w')
  {
    hide Enabled;
    hide Apply;
    var steps :| IsRun(w, steps) && Final(w, steps) == mid;
    RunThen(w, steps, step);
  }

  const ID: Id := [1]
  const PLAN: Plan := Plan(ID, 0, [], map[])
  const LINE: Summary := Summary(ID, [], 0)
  const INDEXED: Store := Store([LINE], map[ID := Manifest(map[], [])], map[], {})
  const DAMAGED: Store := Store([LINE], map[], map[], {})

  /** The world when only these parts have changed since the snapshot was published. */
  function Later(store: Store, bolt: Option<Pid>, lock: Option<Pid>, procs: map<Pid, Proc>, started: set<Pid>, damaged: set<Id>,
                 tickets: nat, log: seq<Entry>): World
  {
    World(store, bolt, lock, procs, started, map[ID := map[]], damaged, tickets, log)
  }

  const PUBLISHED: seq<Entry> := [Entry(1, Publish(LINE))]

  const SAVED: Store := Store([], map[ID := Manifest(map[], [])], map[], {})
  const PRUNED: seq<Entry> := PUBLISHED + [Entry(3, Prune({ID}))]

  lemma Nowhere(w: World)
    ensures Reaches(w, w)
  {
    assert IsRun(w, []) && Final(w, []) == w;
  }

  lemma OneLine()
    ensures IndexIds([LINE]) == {ID} && Arranges([LINE], [LINE]) && KeepSet([LINE], 0) == {} && KeepSet([LINE], 1) == {ID}
    ensures Kept([LINE], {ID}) == [LINE]
  {
    assert LINE in [LINE];
    assert [LINE][0].id == ID;
    assert KeepSet([LINE], 1) == {[LINE][0].id};
    KeptAll([LINE], {ID});
  }

  // Process 1 creates a snapshot of an empty database.

  const W1: World := Later(Store([], map[], map[], {}), Some(1), None, map[1 := Scanning(PLAN, 0, {}, 0)], {1}, {}, 0, [])

  lemma Scans()
    ensures Reaches(EMPTY_WORLD, W1)
  {
    hide Reaches;
    Nowhere(EMPTY_WORLD);
    OneMore(EMPTY_WORLD, EMPTY_WORLD, StartCreate(1, PLAN), W1);
  }

  const W2: World := Later(SAVED, Some(1), None, map[1 := Saved(PLAN)], {1}, {}, 0, [])

  lemma Saves()
    ensures Reaches(EMPTY_WORLD, W2)
  {
    hide Reaches;
    Scans();
    OneMore(EMPTY_WORLD, W1, SaveManifest(1), W2);
  }

  const W3: World := Later(SAVED, Some(1), Some(1), map[1 := PubLocked(PLAN)], {1}, {}, 1, [])

  lemma Locks()
    ensures Reaches(EMPTY_WORLD, W3)
  {
    hide Reaches;
    Saves();
    OneMore(EMPTY_WORLD, W2, AcquireLock(1), W3);
  }

  const W4: World := Later(SAVED, Some(1), Some(1), map[1 := PubLoaded(PLAN, [])], {1}, {}, 1, [])

  lemma Loads()
    ensures Reaches(EMPTY_WORLD, W4)
  {
    hide Reaches;
    Locks();
    OneMore(EMPTY_WORLD, W3, LoadIndex(1, []), W4);
  }

  const W5: World := Later(INDEXED, Some(1), Some(1), map[1 := Leaving(true, true)], {1}, {}, 1, PUBLISHED)

  lemma Publishes()
    ensures Reaches(EMPTY_WORLD, W5)
  {
    hide Reaches;
    Loads();
    OneMore(EMPTY_WORLD, W4, PublishIndex(1), W5);
  }

  const W6: World := Later(INDEXED, Some(1), None, map[1 := Leaving(true, false)], {1}, {}, 1, PUBLISHED)

  lemma Unlocks()
    ensures Reaches(EMPTY_WORLD, W6)
  {
    hide Reaches;
    Publishes();
    OneMore(EMPTY_WORLD, W5, Unlock(1), W6);
  }

  const W7: World := Later(INDEXED, None, None, map[], {1}, {}, 1, PUBLISHED)

  lemma Closes()
    ensures Reaches(EMPTY_WORLD, W7)
  {
    hide Reaches;
    Unlocks();
    OneMore(EMPTY_WORLD, W6, Close(1), W7);
  }

  // Process 2 collects with keepLast 0 and is killed after deleting the manifest; its lock file is reclaimed.

  const W8: World := Later(INDEXED, Some(2), None, map[2 := GcWaiting(0)], {1, 2}, {}, 1, PUBLISHED)

  lemma Collects()
    ensures Reaches(EMPTY_WORLD, W8)
  {
    hide Reaches;
    Closes();
    OneMore(EMPTY_WORLD, W7, StartGc(2, 0), W8);
  }

  const W9: World := Later(INDEXED, Some(2), Some(2), map[2 := GcLocked(0)], {1, 2}, {}, 2, PUBLISHED)

  lemma LocksToo()
    ensures Reaches(EMPTY_WORLD, W9)
  {
    hide Reaches;
    Collects();
    OneMore(EMPTY_WORLD, W8, AcquireLock(2), W9);
  }

  const W10: World := Later(INDEXED, Some(2), Some(2), map[2 := GcRecover(0, INDEXED, [], false)], {1, 2}, {}, 2, PUBLISHED)

  lemma Recovers()
    ensures Reaches(EMPTY_WORLD, W10)
  {
    OneLine();
    hide KeepSet;
    hide Arranges;
    hide Kept;
    hide Reaches;
    LocksToo();
    OneMore(EMPTY_WORLD, W9, LoadIndex(2, []), W10);
  }

  const W11: World := Later(INDEXED, Some(2), Some(2), map[2 := GcPrune(0, INDEXED, {}, 0, false)], {1, 2}, {}, 2, PUBLISHED)

  lemma Decides()
    ensures Reaches(EMPTY_WORLD, W11)
  {
    OneLine();
    hide KeepSet;
    hide Arranges;
    hide Kept;
    hide Reaches;
    Recovers();
    OneMore(EMPTY_WORLD, W10, Decide(2, [LINE]), W11);
  }

  const W12: World := Later(DAMAGED, Some(2), Some(2), map[2 := GcPrune(0, INDEXED, {}, 0, true)], {1, 2}, {ID}, 2, PUBLISHED)

  lemma Prunes()
    ensures Reaches(EMPTY_WORLD, W12)
  {
    hide Reaches;
    Decides();
    OneMore(EMPTY_WORLD, W11, PruneManifest(2), W12);
  }

  const W13: World := Later(DAMAGED, None, Some(2), map[], {1, 2}, {ID}, 2, PUBLISHED)

  lemma Dies()
    ensures Reaches(EMPTY_WORLD, W13)
  {
    hide Reaches;
    Prunes();
    OneMore(EMPTY_WORLD, W12, Crash(2), W13);
  }

  const W14: World := Later(DAMAGED, None, None, map[], {1, 2}, {ID}, 2, PUBLISHED)

  lemma Reclaims()
    ensures Reaches(EMPTY_WORLD, W14)
  {
    hide Reaches;
    Dies();
    OneMore(EMPTY_WORLD, W13, ReclaimLock, W14);
  }

  // Process 3 collects with keepLast 1, keeps the snapshot, and stands before the mark.

  const W15: World := Later(DAMAGED, Some(3), None, map[3 := GcWaiting(1)], {1, 2, 3}, {ID}, 2, PUBLISHED)

  lemma CollectsAgain()
    ensures Reaches(EMPTY_WORLD, W15)
  {
    hide Reaches;
    Reclaims();
    OneMore(EMPTY_WORLD, W14, StartGc(3, 1), W15);
  }

  const W16: World := Later(DAMAGED, Some(3), Some(3), map[3 := GcLocked(1)], {1, 2, 3}, {ID}, 3, PUBLISHED)

  lemma LocksAgain()
    ensures Reaches(EMPTY_WORLD, W16)
  {
    hide Reaches;
    CollectsAgain();
    OneMore(EMPTY_WORLD, W15, AcquireLock(3), W16);
  }

  const W17: World := Later(DAMAGED, Some(3), Some(3), map[3 := GcRecover(1, DAMAGED, [], false)], {1, 2, 3}, {ID}, 3, PUBLISHED)

  lemma RecoversAgain()
    ensures Reaches(EMPTY_WORLD, W17)
  {
    OneLine();
    hide KeepSet;
    hide Arranges;
    hide Kept;
    hide Reaches;
    LocksAgain();
    OneMore(EMPTY_WORLD, W16, LoadIndex(3, []), W17);
  }

  const W18: World := Later(DAMAGED, Some(3), Some(3), map[3 := GcPrune(1, DAMAGED, {ID}, 0, false)], {1, 2, 3}, {ID}, 3, PUBLISHED)

  lemma DecidesAgain()
    ensures Reaches(EMPTY_WORLD, W18)
  {
    OneLine();
    hide KeepSet;
    hide Arranges;
    hide Kept;
    hide Reaches;
    RecoversAgain();
    OneMore(EMPTY_WORLD, W17, Decide(3, [LINE]), W18);
  }

  const W19: World := Later(DAMAGED, Some(3), Some(3), map[3 := GcPrune(1, DAMAGED, {ID}, 1, false)], {1, 2, 3}, {ID}, 3, PUBLISHED)

  lemma Skips()
    ensures Reaches(EMPTY_WORLD, W19)
  {
    hide Reaches;
    DecidesAgain();
    OneMore(EMPTY_WORLD, W18, SkipKept(3), W19);
  }

  const W20: World := Later(DAMAGED, Some(3), Some(3), map[3 := GcMark(1, DAMAGED, {ID})], {1, 2, 3}, {ID}, 3, PRUNED)

  lemma Stands()
    ensures Reaches(EMPTY_WORLD, W20)
  {
    OneLine();
    hide KeepSet;
    hide Arranges;
    hide Kept;
    hide Reaches;
    Skips();
    OneMore(EMPTY_WORLD, W19, SaveKept(3), W20);
  }

  /** It does happen: a pass with keepLast 0 is killed while pruning, and the next one, with keepLast 1, cannot mark. */
  lemma AStuckPass()
    ensures exists w :: Reaches(EMPTY_WORLD, w) && (exists p :: p in w.procs && w.procs[p].GcMark? && !Enabled(w, Mark(p)))
  {
    Stands();
    hide Reaches;
    var w := W20;
    OneLine();
    assert ID in IndexIds(w.store.index) && ID !in w.store.manifests;
    assert 3 in w.procs && w.procs[3].GcMark? && !Enabled(w, Mark(3));
  }
}
