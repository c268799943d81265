/** What every run of the protocol keeps. */
module Lifecycle {
  import opened ByteStrings
  import opened DocRefs
  import opened Options
  import opened Scope
  import opened Permutations
  import opened Protocol

  /** The snapshot can be restored to exactly `content`: its manifest, all its doc refs and every object are there. */
  ghost predicate Restorable(s: Store, id: Id, content: map<Coll, seq<DocRef>>)
  {
    && id in s.manifests && s.manifests[id].docCounts.Keys == content.Keys
    && forall c :: c in content ==>
         s.manifests[id].docCounts[c] == |content[c]| && RefList(s.refs, id, c) == content[c] && HashesOf(content[c]) <= s.objects
  }

  /** Where it concerns these snapshots, the manifests and doc refs are as they were. */
  ghost predicate SameFor(s: Store, start: Store, ids: set<Id>)
  {
    && (forall id :: id in ids ==> (id in s.manifests <==> id in start.manifests))
    && (forall id :: id in ids && id in s.manifests ==> s.manifests[id] == start.manifests[id])
    && (forall id, c :: id in ids ==> RefList(s.refs, id, c) == RefList(start.refs, id, c))
  }

  function KeptIdsOf(start: Store, keep: set<Id>): set<Id>
  {
    IndexIds(start.index) * keep
  }

  /** The hashes a pass that keeps `keep` has to spare. */
  function Live(start: Store, keep: set<Id>): set<Hash>
  {
    Referenced(start, KeptIdsOf(start, keep))
  }

  // ---- What holds of a process between its steps ----

  ghost predicate ScanView(w: World, c: Proc)
    requires c.Scanning?
  {
    var id, colls, content := c.plan.id, c.plan.colls, c.plan.content;
    && PlanOk(c.plan) && id in w.content && w.content[id] == content
    && id !in IndexIds(w.store.index) && id !in w.store.manifests && id !in w.damaged
    && c.k <= |colls| && c.written <= |Current(c)| && c.stored <= HashesOf(Current(c)) && c.stored <= w.store.objects
    && (c.written > 0 ==> c.stored == HashesOf(Current(c)))
    && (forall j :: 0 <= j < c.k ==> RefList(w.store.refs, id, colls[j]) == content[colls[j]] && HashesOf(content[colls[j]]) <= w.store.objects)
    && (c.k < |colls| ==> RefList(w.store.refs, id, colls[c.k]) == Current(c)[..c.written])
    && (forall j :: c.k < j < |colls| ==> RefList(w.store.refs, id, colls[j]) == [])
  }

  ghost predicate SavedView(w: World, plan: Plan)
  {
    && plan.id in w.content && w.content[plan.id] == plan.content
    && plan.id !in IndexIds(w.store.index) && plan.id !in w.damaged
    && Restorable(w.store, plan.id, plan.content)
  }

  ghost predicate RecoverView(s: Store, c: Proc)
    requires c.GcRecover?
  {
    && s.index == c.start.index && s.objects == c.start.objects
    && SameFor(s, c.start, IndexIds(c.start.index))
    && (forall id :: id in s.manifests ==> id in IndexIds(c.start.index) || id in c.todo)
    && (forall id :: id in c.todo ==> id !in IndexIds(c.start.index))
    && Distinct(c.todo) && (forall i :: (if c.half then 1 else 0) <= i < |c.todo| ==> c.todo[i] in s.manifests)
    && (c.half ==> c.todo != [] && c.todo[0] !in s.manifests)
  }

  ghost predicate PruneView(s: Store, c: Proc)
    requires c.GcPrune?
  {
    && s.index == c.start.index && s.objects == c.start.objects
    && IsKeepChoice(c.start.index, c.keepLast, c.keep)
    && SameFor(s, c.start, KeptIdsOf(c.start, c.keep))
    && s.manifests.Keys <= IndexIds(c.start.index)
    && c.p <= |c.start.index| && (c.half ==> c.p < |c.start.index|)
    && (forall j :: 0 <= j < c.p && c.start.index[j].id !in c.keep ==> c.start.index[j].id !in s.manifests)
    && (c.half ==> c.start.index[c.p].id !in c.keep && c.start.index[c.p].id !in s.manifests)
  }

  ghost predicate KeptView(s: Store, start: Store, keepLast: int, keep: set<Id>)
  {
    && s.index == Kept(start.index, keep) && DistinctIndex(start.index)
    && IsKeepChoice(start.index, keepLast, keep)
    && SameFor(s, start, KeptIdsOf(start, keep))
    && s.manifests.Keys <= KeptIdsOf(start, keep)
  }

  ghost predicate SweepView(s: Store, c: Proc)
    requires c.GcSweep?
  {
    && KeptView(s, c.start, c.keepLast, c.keep)
    && IndexIds(s.index) <= s.manifests.Keys
    && (forall h :: h in c.garbage ==> h in s.objects && h !in Live(c.start, c.keep))
    && (forall h :: h in s.objects ==> h in c.start.objects && (h in c.garbage || h in Live(c.start, c.keep)))
    && (forall h :: h in c.start.objects && h in Live(c.start, c.keep) ==> h in s.objects)
  }

  /** What a process that holds the bbolt lock may rely on. */
  ghost predicate BoltView(w: World, c: Proc)
  {
    match c
    case Scanning(_, _, _, _) => ScanView(w, c)
    case Saved(plan) => SavedView(w, plan)
    case PubLocked(plan) => SavedView(w, plan)
    case PubLoaded(plan, _) => SavedView(w, plan)
    case GcRecover(_, _, _, _) => RecoverView(w.store, c)
    case GcPrune(_, _, _, _, _) => PruneView(w.store, c)
    case GcMark(keepLast, start, keep) => KeptView(w.store, start, keepLast, keep) && w.store.objects == start.objects
    case GcSweep(_, _, _, _) => SweepView(w.store, c)
    case _ => true
  }

  /** What a process that holds the scope lock may rely on: its copy of the index is the index. */
  ghost predicate LockView(index: seq<Summary>, c: Proc)
  {
    match c
    case PubLoaded(_, idx) => idx == index
    case TagLoaded(_, _, idx) => idx == index
    case TagWritten(at, _, idx) => idx == index && at < |idx|
    case _ => true
  }

  // ---- The invariant ----

  ghost predicate LocksInv(w: World)
  {
    && (forall p :: p in w.procs ==> (HoldsBolt(w.procs[p]) <==> w.bolt == Some(p)))
    && (forall p :: p in w.procs && HoldsLock(w.procs[p]) ==> w.lock == Some(p))
    && (w.bolt.Some? ==> w.bolt.value in w.procs)
    && (forall p :: p in w.procs ==> p in w.started)
  }

  ghost predicate ProcsInv(w: World)
  {
    && (forall p :: p in w.procs ==> BoltView(w, w.procs[p]))
    && (forall p :: p in w.procs ==> LockView(w.store.index, w.procs[p]))
  }

  ghost predicate IndexInv(w: World)
  {
    && DistinctIndex(w.store.index)
    && IndexIds(w.store.index) <= w.content.Keys
    && w.store.manifests.Keys <= w.content.Keys
    && (forall k :: k in w.store.refs ==> k.0 in w.content)
    && (forall id :: id in w.damaged ==> id in w.content && id !in w.store.manifests)
  }

  /** Every indexed snapshot that no pruning pass has damaged is restorable, to what its Create set out to record. */
  ghost predicate PublishedInv(w: World)
  {
    forall id :: id in IndexIds(w.store.index) && id !in w.damaged ==> id in w.content && Restorable(w.store, id, w.content[id])
  }

  /** The index is what applying the logged updates one at a time gives, and they were logged in lock order. */
  ghost predicate LogInv(w: World)
  {
    && w.store.index == Replay(w.log)
    && (forall i, j :: 0 <= i < j < |w.log| ==> w.log[i].ticket < w.log[j].ticket)
    && (forall i :: 0 <= i < |w.log| ==> w.log[i].ticket <= w.tickets)
    && (forall p, i :: p in w.procs && MayPublish(w.procs[p]) && 0 <= i < |w.log| ==> w.log[i].ticket < w.tickets)
  }

  ghost predicate Inv(w: World)
  {
    LocksInv(w) && ProcsInv(w) && IndexInv(w) && PublishedInv(w) && LogInv(w)
  }

  lemma InvEmpty()
    ensures Inv(EMPTY_WORLD)
  {
  }

  // ---- Steps that only move a process ----

  /** A step that only moves one process keeps the invariant if the process can rely on what its new state asks for. */
  lemma MoveOnly(w: World, w': World, p: Pid, c: Proc)
    requires Inv(w) && p in w.procs
    requires w' == Move(w, p, c)
    requires HoldsBolt(c) <==> HoldsBolt(w.procs[p])
    requires HoldsLock(c) ==> HoldsLock(w.procs[p])
    requires MayPublish(c) ==> MayPublish(w.procs[p])
    requires BoltView(w, c) && LockView(w.store.index, c)
    ensures Inv(w')
  {
    hide BoltView;
    hide LockView;
    hide Restorable;
    forall q | q in w'.procs ensures BoltView(w', w'.procs[q]) {
      SameBoltView(w, w', if q == p then c else w.procs[q]);
    }
  }

  lemma SameBoltView(w: World, w': World, c: Proc)
    requires BoltView(w, c)
    requires w'.store == w.store && w'.damaged == w.damaged
    requires forall id :: id in w.content ==> id in w'.content && w'.content[id] == w.content[id]
    ensures BoltView(w', c)
  {
  }

  lemma NoBoltNoView(w: World, c: Proc)
    requires !HoldsBolt(c)
    ensures BoltView(w, c)
  {
  }

  lemma NoLockNoView(index: seq<Summary>, c: Proc)
    requires !HoldsLock(c)
    ensures LockView(index, c)
  {
  }

  /** A step by the holder of the bbolt lock: nobody else relies on anything but the index. */
  lemma BoltHolderStep(w: World, w': World, p: Pid)
    requires LocksInv(w) && ProcsInv(w)
    requires w.bolt == Some(p) && w'.procs - {p} == w.procs - {p}
    requires w'.store.index == w.store.index
    requires p in w'.procs ==> BoltView(w', w'.procs[p]) && LockView(w'.store.index, w'.procs[p])
    ensures ProcsInv(w')
  {
    hide BoltView;
    hide LockView;
    forall q | q in w'.procs ensures BoltView(w', w'.procs[q]) && LockView(w'.store.index, w'.procs[q]) {
      if q != p {
        assert q in w.procs - {p};
        assert q in w'.procs - {p};
        assert w'.procs[q] == (w'.procs - {p})[q] == w.procs[q];
        NoBoltNoView(w', w.procs[q]);
      }
    }
  }

  /** A step that leaves both locks, the index and the log alone. */
  lemma QuietStep(w: World, w': World, p: Pid, c: Proc)
    requires LocksInv(w) && LogInv(w) && p in w.procs
    requires w'.procs == w.procs[p := c] && w'.bolt == w.bolt && w'.lock == w.lock && w'.started == w.started
    requires w'.tickets == w.tickets && w'.log == w.log && w'.store.index == w.store.index
    requires HoldsBolt(c) <==> HoldsBolt(w.procs[p])
    requires HoldsLock(c) ==> HoldsLock(w.procs[p])
    requires MayPublish(c) ==> MayPublish(w.procs[p])
    ensures LocksInv(w') && LogInv(w')
  {
  }

  // ---- Starting ----

  lemma StartCreateKeeps(w: World, p: Pid, plan: Plan)
    requires Inv(w) && Enabled(w, StartCreate(p, plan))
    ensures Inv(Apply(w, StartCreate(p, plan)))
  {
    hide BoltView;
    hide LockView;
    hide Restorable;
    hide Replay;
    hide FindSpec;
    hide PlanOk;
    var w' := Apply(w, StartCreate(p, plan));
    StartCreateView(w, p, plan);
    forall q | q in w.procs ensures BoltView(w', w.procs[q]) {
      NoBoltNoView(w', w.procs[q]);
    }
  }

  lemma StartCreateView(w: World, p: Pid, plan: Plan)
    requires IndexInv(w) && Enabled(w, StartCreate(p, plan))
    ensures var w' := Apply(w, StartCreate(p, plan)); p in w'.procs && BoltView(w', w'.procs[p]) && LockView(w'.store.index, w'.procs[p])
  {
    var w' := Apply(w, StartCreate(p, plan));
    var c := Scanning(plan, 0, {}, 0);
    assert forall coll :: (plan.id, coll) !in w.store.refs;
    assert Current(c)[..0] == [];
    assert ScanView(w', c);
  }

  lemma StartOtherKeeps(w: World, p: Pid, c: Proc)
    requires Inv(w) && p !in w.started && (c.TagWaiting? || (c.GcWaiting? && w.bolt.None?))
    ensures Inv(Begin(w, p, c))
  {
    hide BoltView;
    hide LockView;
    hide Restorable;
    hide Replay;
    var w' := Begin(w, p, c);
    WaitingView(w', c);
    forall q | q in w'.procs ensures BoltView(w', w'.procs[q]) {
      if q != p { SameBoltView(w, w', w.procs[q]); }
    }
  }

  lemma WaitingView(w: World, c: Proc)
    requires c.TagWaiting? || c.GcWaiting?
    ensures BoltView(w, c) && LockView(w.store.index, c)
  {
  }

  // ---- Create ----

  lemma PutObjectsView(w: World, p: Pid, batch: set<Hash>)
    requires IsAt(w, p) && BoltView(w, w.procs[p]) && Enabled(w, PutObjects(p, batch))
    ensures var w' := Apply(w, PutObjects(p, batch)); BoltView(w', w'.procs[p])
  {
    var c := w.procs[p];
    var w' := Apply(w, PutObjects(p, batch));
    assert Current(w'.procs[p]) == Current(c);
    assert ScanView(w', w'.procs[p]);
  }

  lemma PutObjectsKeeps(w: World, p: Pid, batch: set<Hash>)
    requires Inv(w) && Enabled(w, PutObjects(p, batch))
    ensures Inv(Apply(w, PutObjects(p, batch)))
  {
    hide BoltView;
    var w' := Apply(w, PutObjects(p, batch));
    PutObjectsView(w, p, batch);
    QuietStep(w, w', p, w'.procs[p]);
    BoltHolderStep(w, w', p);
    MoreObjects(w, w');
  }

  lemma MoreObjects(w: World, w': World)
    requires PublishedInv(w)
    requires w'.content == w.content && w'.damaged == w.damaged
    requires w'.store == w.store.(objects := w'.store.objects) && w.store.objects <= w'.store.objects
    ensures PublishedInv(w')
  {
  }

  /** Chunk writes and manifest writes of an unpublished snapshot are nobody else's concern. */
  lemma UnpublishedWrite(w: World, w': World, id: Id)
    requires PublishedInv(w) && id !in IndexIds(w.store.index)
    requires w'.content == w.content && w'.damaged == w.damaged
    requires w'.store.index == w.store.index && w'.store.objects == w.store.objects
    requires forall x :: x != id ==> (x in w'.store.manifests <==> x in w.store.manifests)
    requires forall x :: x != id && x in w.store.manifests ==> w'.store.manifests[x] == w.store.manifests[x]
    requires forall x, coll :: x != id ==> RefList(w'.store.refs, x, coll) == RefList(w.store.refs, x, coll)
    ensures PublishedInv(w')
  {
  }

  lemma WriteChunkView(w: World, p: Pid, n: nat)
    requires IsAt(w, p) && BoltView(w, w.procs[p]) && Enabled(w, WriteChunk(p, n))
    ensures var w' := Apply(w, WriteChunk(p, n)); BoltView(w', w'.procs[p])
    ensures w.procs[p].plan.id !in IndexIds(w.store.index) && w.procs[p].plan.id in w.content
  {
    var c := w.procs[p];
    var w' := Apply(w, WriteChunk(p, n));
    assert Current(w'.procs[p]) == Current(c);
    assert ScanView(w, c);
    assert ScanView(w', w'.procs[p]);
  }

  lemma WriteChunkKeeps(w: World, p: Pid, n: nat)
    requires Inv(w) && Enabled(w, WriteChunk(p, n))
    ensures Inv(Apply(w, WriteChunk(p, n)))
  {
    hide BoltView;
    hide Restorable;
    var w' := Apply(w, WriteChunk(p, n));
    WriteChunkView(w, p, n);
    QuietStep(w, w', p, w'.procs[p]);
    BoltHolderStep(w, w', p);
    UnpublishedWrite(w, w', w.procs[p].plan.id);
  }

  lemma NextCollectionKeeps(w: World, p: Pid)
    requires Inv(w) && Enabled(w, NextCollection(p))
    ensures Inv(Apply(w, NextCollection(p)))
  {
    hide BoltView;
    hide LockView;
    hide Restorable;
    NextCollectionView(w, p);
    var w' := Apply(w, NextCollection(p));
    MoveOnly(w, w', p, w'.procs[p]);
  }

  lemma NextCollectionView(w: World, p: Pid)
    requires IsAt(w, p) && BoltView(w, w.procs[p]) && Enabled(w, NextCollection(p))
    ensures var w' := Apply(w, NextCollection(p)); BoltView(w, w'.procs[p]) && LockView(w.store.index, w'.procs[p])
  {
    var c := w.procs[p];
    var c' := c.(k := c.k + 1, stored := {}, written := 0);
    assert Current(c)[..|Current(c)|] == Current(c);
    assert Current(c')[..0] == [];
    assert ScanView(w, c');
  }

  lemma SaveManifestKeeps(w: World, p: Pid)
    requires Inv(w) && Enabled(w, SaveManifest(p))
    ensures Inv(Apply(w, SaveManifest(p)))
  {
    hide BoltView;
    hide LockView;
    hide Restorable;
    var w' := Apply(w, SaveManifest(p));
    SaveManifestView(w, p);
    QuietStep(w, w', p, w'.procs[p]);
    BoltHolderStep(w, w', p);
    UnpublishedWrite(w, w', w.procs[p].plan.id);
  }

  lemma SaveManifestView(w: World, p: Pid)
    requires IsAt(w, p) && BoltView(w, w.procs[p]) && Enabled(w, SaveManifest(p))
    ensures var w' := Apply(w, SaveManifest(p)); BoltView(w', w'.procs[p]) && LockView(w'.store.index, w'.procs[p])
    ensures var id := w.procs[p].plan.id; id in w.content && id !in IndexIds(w.store.index) && id !in w.damaged
  {
    var c := w.procs[p];
    var w' := Apply(w, SaveManifest(p));
    forall coll | coll in c.plan.content
      ensures RefList(w.store.refs, c.plan.id, coll) == c.plan.content[coll] && HashesOf(c.plan.content[coll]) <= w.store.objects
    {
      var j :| 0 <= j < |c.plan.colls| && c.plan.colls[j] == coll;
    }
    assert SavedView(w', c.plan);
  }

  lemma PublishIndexKeeps(w: World, p: Pid)
    requires Inv(w) && Enabled(w, PublishIndex(p))
    ensures Inv(Apply(w, PublishIndex(p)))
  {
    hide BoltView;
    hide LockView;
    hide Restorable;
    hide LogInv;
    hide Replay;
    var plan := w.procs[p].plan;
    var s := Summary(plan.id, [], plan.createdAt);
    var w' := Apply(w, PublishIndex(p));
    PublishIndexView(w, p);
    LeavingView(w', true, true);
    Appended(w.store.index, s);
    OthersHoldNoBolt(w, w', p);
    LockHolderStep(w, w', p, Leaving(true, true));
    IndexStep(w, w', p, Leaving(true, true), Publish(s));
    Published(w, w', s);
  }

  lemma PublishIndexView(w: World, p: Pid)
    requires IsAt(w, p) && w.procs[p].PubLoaded? && BoltView(w, w.procs[p]) && LockView(w.store.index, w.procs[p])
    ensures SavedView(w, w.procs[p].plan) && w.procs[p].idx == w.store.index
  {
  }

  lemma Published(w: World, w': World, s: Summary)
    requires PublishedInv(w) && s.id in w.content && Restorable(w.store, s.id, w.content[s.id])
    requires w'.content == w.content && w'.damaged == w.damaged
    requires w'.store == w.store.(index := w'.store.index) && IndexIds(w'.store.index) == IndexIds(w.store.index) + {s.id}
    ensures PublishedInv(w')
  {
  }

  lemma Appended(index: seq<Summary>, s: Summary)
    requires DistinctIndex(index) && s.id !in IndexIds(index)
    ensures DistinctIndex(index + [s])
    ensures IndexIds(index + [s]) == IndexIds(index) + {s.id}
  {
  }

  /** A step that writes the index and with that gives up the right to write it again. */
  lemma IndexStep(w: World, w': World, p: Pid, c: Proc, u: Update)
    requires LocksInv(w) && LogInv(w) && p in w.procs && MayPublish(w.procs[p])
    requires w'.procs == w.procs[p := c] && w'.bolt == w.bolt && w'.lock == w.lock && w'.started == w.started
    requires HoldsBolt(c) <==> HoldsBolt(w.procs[p])
    requires !MayPublish(c)
    requires w'.log == w.log + [Entry(w.tickets, u)] && w'.tickets == w.tickets
    requires w'.store.index == ApplyUpdate(w.store.index, u)
    ensures LocksInv(w') && LogInv(w')
  {
    hide ApplyUpdate;
    assert w'.log[..|w'.log| - 1] == w.log;
    assert Replay(w'.log) == ApplyUpdate(Replay(w.log), u);
    assert forall q :: q in w'.procs ==> !MayPublish(w'.procs[q]);
  }

  /** A step by the holder of the scope lock: nobody else relies on its copy of the index. */
  lemma LockHolderStep(w: World, w': World, p: Pid, c: Proc)
    requires LocksInv(w) && ProcsInv(w) && p in w.procs && HoldsLock(w.procs[p])
    requires w'.procs == w.procs[p := c]
    requires BoltView(w', c) && LockView(w'.store.index, c)
    requires forall q :: q in w.procs && q != p ==> BoltView(w', w.procs[q])
    ensures ProcsInv(w')
  {
    hide BoltView;
    hide LockView;
    hide HoldsBolt;
    hide HoldsLock;
    forall q | q in w'.procs ensures LockView(w'.store.index, w'.procs[q]) {
      if q != p {
        NoLockNoView(w'.store.index, w.procs[q]);
      }
    }
  }

  /** Nobody but the holder of the bbolt lock relies on anything it guards. */
  lemma OthersHoldNoBolt(w: World, w': World, p: Pid)
    requires LocksInv(w) && w.bolt == Some(p)
    ensures forall q :: q in w.procs && q != p ==> BoltView(w', w.procs[q])
  {
  }

  // ---- The scope lock ----

  lemma AcquireLockKeeps(w: World, p: Pid)
    requires Inv(w) && Enabled(w, AcquireLock(p))
    ensures Inv(Apply(w, AcquireLock(p)))
  {
    hide BoltView;
    hide LockView;
    hide Restorable;
    hide Replay;
    var w' := Apply(w, AcquireLock(p));
    AcquireLockView(w, p);
    forall q | q in w'.procs ensures BoltView(w', w'.procs[q]) {
      if q != p { SameBoltView(w, w', w.procs[q]); }
    }
  }

  lemma AcquireLockView(w: World, p: Pid)
    requires IsAt(w, p) && BoltView(w, w.procs[p]) && Enabled(w, AcquireLock(p))
    ensures var w' := Apply(w, AcquireLock(p)); BoltView(w', w'.procs[p]) && LockView(w'.store.index, w'.procs[p])
  {
  }

  lemma LoadIndexKeeps(w: World, p: Pid, todo: seq<Id>)
    requires Inv(w) && Enabled(w, LoadIndex(p, todo))
    ensures Inv(Apply(w, LoadIndex(p, todo)))
  {
    hide BoltView;
    hide LockView;
    hide Restorable;
    var w' := Apply(w, LoadIndex(p, todo));
    LoadIndexView(w, p, todo);
    MoveOnly(w, w', p, w'.procs[p]);
  }

  lemma LoadIndexView(w: World, p: Pid, todo: seq<Id>)
    requires IsAt(w, p) && BoltView(w, w.procs[p]) && Enabled(w, LoadIndex(p, todo))
    ensures var w' := Apply(w, LoadIndex(p, todo)); BoltView(w, w'.procs[p]) && LockView(w.store.index, w'.procs[p])
  {
    assert forall i :: 0 <= i < |todo| ==> todo[i] in todo;
  }

  lemma ReturnKeeps(w: World, p: Pid)
    requires Inv(w) && Enabled(w, Return(p))
    ensures Inv(Apply(w, Return(p)))
  {
    MoveOnly(w, Apply(w, Return(p)), p, Leaving(HoldsBolt(w.procs[p]), HoldsLock(w.procs[p])));
  }

  lemma UnlockKeeps(w: World, p: Pid)
    requires Inv(w) && Enabled(w, Unlock(p))
    ensures Inv(Apply(w, Unlock(p)))
  {
    hide BoltView;
    hide LockView;
    hide Restorable;
    hide Replay;
    var w' := Apply(w, Unlock(p));
    LeavingView(w', w.procs[p].bolt, false);
    forall q | q in w'.procs ensures BoltView(w', w'.procs[q]) {
      if q != p { SameBoltView(w, w', w.procs[q]); }
    }
  }

  lemma LeavingView(w: World, bolt: bool, lock: bool)
    ensures BoltView(w, Leaving(bolt, lock)) && LockView(w.store.index, Leaving(bolt, lock))
  {
  }

  /** Close and Crash: the process is gone, and what it left behind disturbs nobody. */
  lemma GoneKeeps(w: World, p: Pid)
    requires Inv(w) && p in w.procs
    ensures Inv(Gone(w, p))
  {
    var w' := Gone(w, p);
    forall q | q in w'.procs ensures BoltView(w', w'.procs[q]) {
      assert w'.procs[q] == w.procs[q];
      SameBoltView(w, w', w.procs[q]);
    }
    hide BoltView;
    hide Restorable;
  }

  lemma ReclaimLockKeeps(w: World)
    requires Inv(w) && Enabled(w, ReclaimLock)
    ensures Inv(Apply(w, ReclaimLock))
  {
    var w' := Apply(w, ReclaimLock);
    forall q | q in w'.procs ensures BoltView(w', w'.procs[q]) {
      SameBoltView(w, w', w.procs[q]);
    }
    hide BoltView;
    hide Restorable;
  }

  // ---- Tag ----

  lemma TagManifestKeeps(w: World, p: Pid)
    requires Inv(w) && Enabled(w, TagManifest(p))
    ensures Inv(Apply(w, TagManifest(p)))
  {
    hide BoltView;
    hide LockView;
    hide Restorable;
    hide LogInv;
    var c := w.procs[p];
    var w' := Apply(w, TagManifest(p));
    var id := c.idx[FindSpec(c.idx, c.query)].id;
    TagManifestView(w, p);
    forall q | q in w.procs && q != p ensures BoltView(w', w.procs[q]) {
      TagUnseen(w, w', id, w.procs[q]);
    }
    LockHolderStep(w, w', p, w'.procs[p]);
    QuietStep(w, w', p, w'.procs[p]);
    Retagged(w, w', id);
  }

  lemma TagManifestView(w: World, p: Pid)
    requires IsAt(w, p) && LockView(w.store.index, w.procs[p]) && Enabled(w, TagManifest(p))
    ensures var w' := Apply(w, TagManifest(p)); BoltView(w', w'.procs[p]) && LockView(w'.store.index, w'.procs[p])
    ensures var c := w.procs[p]; c.idx[FindSpec(c.idx, c.query)].id in IndexIds(w.store.index)
  {
    var c := w.procs[p];
    assert c.idx[FindSpec(c.idx, c.query)] in w.store.index;
  }

  /** A Create in flight does not mind another snapshot's manifest being retagged; a GC holds the lock, so there is none. */
  lemma TagUnseen(w: World, w': World, id: Id, c: Proc)
    requires BoltView(w, c) && !HoldsLock(c) && id in IndexIds(w.store.index) && id in w.store.manifests
    requires w'.content == w.content && w'.damaged == w.damaged
    requires w'.store.index == w.store.index && w'.store.objects == w.store.objects && w'.store.refs == w.store.refs
    requires w'.store.manifests.Keys == w.store.manifests.Keys
    requires forall x :: x != id && x in w.store.manifests ==> w'.store.manifests[x] == w.store.manifests[x]
    ensures BoltView(w', c)
  {
  }

  lemma Retagged(w: World, w': World, id: Id)
    requires PublishedInv(w) && IndexInv(w)
    requires w'.content == w.content && w'.damaged == w.damaged
    requires w'.store.index == w.store.index && w'.store.objects == w.store.objects && w'.store.refs == w.store.refs
    requires w'.store.manifests.Keys == w.store.manifests.Keys
    requires forall x :: x in w.store.manifests ==> w'.store.manifests[x].docCounts == w.store.manifests[x].docCounts
    ensures PublishedInv(w') && IndexInv(w')
  {
  }

  lemma SaveTagKeeps(w: World, p: Pid)
    requires Inv(w) && Enabled(w, SaveTag(p))
    ensures Inv(Apply(w, SaveTag(p)))
  {
    hide BoltView;
    hide LockView;
    hide Restorable;
    hide IndexIds;
    hide LogInv;
    hide Replay;
    var c := w.procs[p];
    var w' := Apply(w, SaveTag(p));
    SaveTagView(w, p);
    SameIdsTagged(w.store.index, c.at, c.tag);
    LeavingView(w', false, true);
    forall q | q in w.procs && q != p ensures BoltView(w', w.procs[q]) {
      IndexUnseen(w, w', w.procs[q]);
    }
    LockHolderStep(w, w', p, Leaving(false, true));
    IndexStep(w, w', p, Leaving(false, true), AddTag(c.idx[c.at].id, c.tag));
    Reindexed(w, w');
  }

  lemma SaveTagView(w: World, p: Pid)
    requires IsAt(w, p) && w.procs[p].TagWritten? && LockView(w.store.index, w.procs[p])
    ensures w.procs[p].idx == w.store.index && w.procs[p].at < |w.store.index|
  {
  }

  lemma SameIdsTagged(index: seq<Summary>, at: nat, tag: Bytes)
    requires at < |index| && DistinctIndex(index)
    ensures var index' := WithTag(index, at, tag);
      IndexIds(index') == IndexIds(index) && DistinctIndex(index') && index' == TagById(index, index[at].id, tag)
  {
    var index' := WithTag(index, at, tag);
    assert forall i :: 0 <= i < |index| ==> index'[i].id == index[i].id;
    forall id ensures id in IndexIds(index') <==> id in IndexIds(index) {
      if id in IndexIds(index) {
        var i :| 0 <= i < |index| && index[i].id == id;
        assert index'[i] in index';
      }
      if id in IndexIds(index') {
        var i :| 0 <= i < |index| && index'[i].id == id;
        assert index[i] in index;
      }
    }
  }

  lemma IndexUnseen(w: World, w': World, c: Proc)
    requires BoltView(w, c) && !HoldsLock(c)
    requires w'.content == w.content && w'.damaged == w.damaged
    requires w'.store == w.store.(index := w'.store.index) && IndexIds(w'.store.index) == IndexIds(w.store.index)
    ensures BoltView(w', c)
  {
  }

  lemma Reindexed(w: World, w': World)
    requires PublishedInv(w) && IndexInv(w) && DistinctIndex(w'.store.index)
    requires w'.content == w.content && w'.damaged == w.damaged
    requires w'.store == w.store.(index := w'.store.index) && IndexIds(w'.store.index) == IndexIds(w.store.index)
    ensures PublishedInv(w') && IndexInv(w')
  {
  }

  // ---- Garbage collection ----

  /** A step of a GC process: it holds both locks, so it need only look after itself and the published snapshots. */
  lemma GcStep(w: World, w': World, p: Pid, c: Proc)
    requires Inv(w) && p in w.procs && MayPublish(w.procs[p]) && HoldsBolt(w.procs[p])
    requires w'.procs == w.procs[p := c] && w'.bolt == w.bolt && w'.lock == w.lock && w'.started == w.started
    requires w'.tickets == w.tickets && w'.log == w.log && w'.content == w.content && w'.store.index == w.store.index
    requires MayPublish(c) && HoldsBolt(c)
    requires BoltView(w', c) && LockView(w.store.index, c)
    requires IndexInv(w') && PublishedInv(w')
    ensures Inv(w')
  {
    hide BoltView;
    hide LockView;
    hide Restorable;
    QuietStep(w, w', p, c);
    BoltHolderStep(w, w', p);
  }

  /** Deleting from unindexed snapshots disturbs no published one. */
  lemma UnindexedGone(w: World, w': World, id: Id)
    requires IndexInv(w) && PublishedInv(w)
    requires id !in IndexIds(w.store.index) || id in w'.damaged
    requires w'.content == w.content && w'.damaged >= w.damaged
    requires forall x :: x in w'.damaged ==> x in w.damaged || (x == id && x !in w'.store.manifests && x in w.content)
    requires w'.store.index == w.store.index && w'.store.objects == w.store.objects
    requires w'.store.manifests == w.store.manifests || w'.store.manifests == w.store.manifests - {id}
    requires w'.store.refs == w.store.refs || w'.store.refs == DropRefs(w.store.refs, id)
    ensures IndexInv(w') && PublishedInv(w')
  {
    hide HashesOf;
    forall x | x in IndexIds(w'.store.index) && x !in w'.damaged
      ensures x in w'.content && Restorable(w'.store, x, w'.content[x])
    {
      assert Restorable(w.store, x, w.content[x]);
      assert x != id;
      assert forall c :: RefList(w'.store.refs, x, c) == RefList(w.store.refs, x, c);
    }
  }

  lemma RemoveAbandonedKeeps(w: World, p: Pid)
    requires Inv(w) && Enabled(w, RemoveAbandoned(p))
    ensures Inv(Apply(w, RemoveAbandoned(p)))
  {
    hide BoltView;
    hide LockView;
    hide Restorable;
    hide LogInv;
    var w' := Apply(w, RemoveAbandoned(p));
    RemoveAbandonedView(w, p);
    UnindexedGone(w, w', w.procs[p].todo[0]);
    GcStep(w, w', p, w'.procs[p]);
  }

  lemma RemoveAbandonedView(w: World, p: Pid)
    requires IsAt(w, p) && BoltView(w, w.procs[p]) && Enabled(w, RemoveAbandoned(p))
    ensures var w' := Apply(w, RemoveAbandoned(p)); BoltView(w', w'.procs[p]) && LockView(w.store.index, w'.procs[p])
    ensures w.procs[p].todo[0] !in IndexIds(w.store.index)
  {
    hide SameFor;
    var c := w.procs[p];
    var w' := Apply(w, RemoveAbandoned(p));
    assert RecoverView(w.store, c);
    assert c.todo[0] in c.todo;
    SameForOthers(w.store, w'.store, c.start, IndexIds(c.start.index), c.todo[0]);
    assert RecoverView(w'.store, w'.procs[p]);
  }

  lemma DropAbandonedRefsKeeps(w: World, p: Pid)
    requires Inv(w) && Enabled(w, DropAbandonedRefs(p))
    ensures Inv(Apply(w, DropAbandonedRefs(p)))
  {
    hide BoltView;
    hide LockView;
    hide Restorable;
    hide LogInv;
    var w' := Apply(w, DropAbandonedRefs(p));
    DropAbandonedRefsView(w, p);
    UnindexedGone(w, w', w.procs[p].todo[0]);
    GcStep(w, w', p, w'.procs[p]);
  }

  lemma DropAbandonedRefsView(w: World, p: Pid)
    requires IsAt(w, p) && BoltView(w, w.procs[p]) && Enabled(w, DropAbandonedRefs(p))
    ensures var w' := Apply(w, DropAbandonedRefs(p)); BoltView(w', w'.procs[p]) && LockView(w.store.index, w'.procs[p])
    ensures w.procs[p].todo != [] && w.procs[p].todo[0] !in IndexIds(w.store.index)
  {
    hide SameFor;
    var c := w.procs[p];
    var w' := Apply(w, DropAbandonedRefs(p));
    assert RecoverView(w.store, c);
    assert c.todo[0] in c.todo;
    assert forall id :: id in c.todo ==> id == c.todo[0] || id in c.todo[1..];
    SameForOthers(w.store, w'.store, c.start, IndexIds(c.start.index), c.todo[0]);
    assert RecoverView(w'.store, w'.procs[p]);
  }

  lemma DecideKeeps(w: World, p: Pid, sorted: seq<Summary>)
    requires Inv(w) && Enabled(w, Decide(p, sorted))
    ensures Inv(Apply(w, Decide(p, sorted)))
  {
    hide BoltView;
    hide LockView;
    hide Restorable;
    hide Arranges;
    var w' := Apply(w, Decide(p, sorted));
    DecideView(w, p, sorted);
    MoveOnly(w, w', p, w'.procs[p]);
  }

  lemma DecideView(w: World, p: Pid, sorted: seq<Summary>)
    requires IsAt(w, p) && BoltView(w, w.procs[p]) && Enabled(w, Decide(p, sorted))
    ensures var w' := Apply(w, Decide(p, sorted)); BoltView(w, w'.procs[p]) && LockView(w.store.index, w'.procs[p])
  {
    var c := w.procs[p];
    assert IsKeepChoice(c.start.index, c.keepLast, KeepSet(sorted, c.keepLast));
    hide IsKeepChoice;
    hide KeepSet;
    assert PruneView(w.store, Apply(w, Decide(p, sorted)).procs[p]);
  }

  lemma SkipKeptKeeps(w: World, p: Pid)
    requires Inv(w) && Enabled(w, SkipKept(p))
    ensures Inv(Apply(w, SkipKept(p)))
  {
    hide BoltView;
    hide LockView;
    hide Restorable;
    var w' := Apply(w, SkipKept(p));
    SkipKeptView(w, p);
    MoveOnly(w, w', p, w'.procs[p]);
  }

  lemma SkipKeptView(w: World, p: Pid)
    requires IsAt(w, p) && BoltView(w, w.procs[p]) && Enabled(w, SkipKept(p))
    ensures var w' := Apply(w, SkipKept(p)); BoltView(w, w'.procs[p]) && LockView(w.store.index, w'.procs[p])
  {
    hide IsKeepChoice;
    hide SameFor;
    assert PruneView(w.store, w.procs[p]);
    assert PruneView(w.store, Apply(w, SkipKept(p)).procs[p]);
  }

  /** The snapshot at a pruning position is indexed, and no kept snapshot shares its ID. */
  lemma PruningAt(start: Store, keep: set<Id>, i: nat)
    requires i < |start.index| && start.index[i].id !in keep
    ensures start.index[i].id in IndexIds(start.index) && start.index[i].id !in KeptIdsOf(start, keep)
  {
  }

  lemma SameForOthers(s: Store, s': Store, start: Store, ids: set<Id>, id: Id)
    requires SameFor(s, start, ids) && id !in ids
    requires s'.manifests == s.manifests || s'.manifests == s.manifests - {id}
    requires s'.refs == s.refs || s'.refs == DropRefs(s.refs, id)
    ensures SameFor(s', start, ids)
  {
  }

  lemma PruneManifestKeeps(w: World, p: Pid)
    requires Inv(w) && Enabled(w, PruneManifest(p))
    ensures Inv(Apply(w, PruneManifest(p)))
  {
    hide BoltView;
    hide LockView;
    hide Restorable;
    hide LogInv;
    hide IndexIds;
    var w' := Apply(w, PruneManifest(p));
    PruneManifestView(w, p);
    UnindexedGone(w, w', w.procs[p].start.index[w.procs[p].p].id);
    GcStep(w, w', p, w'.procs[p]);
  }

  lemma PruneManifestView(w: World, p: Pid)
    requires IsAt(w, p) && BoltView(w, w.procs[p]) && Enabled(w, PruneManifest(p))
    ensures var w' := Apply(w, PruneManifest(p)); BoltView(w', w'.procs[p]) && LockView(w.store.index, w'.procs[p])
    ensures w.procs[p].start.index[w.procs[p].p].id in IndexIds(w.store.index)
  {
    hide IsKeepChoice;
    hide IndexIds;
    var c := w.procs[p];
    var w' := Apply(w, PruneManifest(p));
    var id := c.start.index[c.p].id;
    assert PruneView(w.store, c);
    PruningAt(c.start, c.keep, c.p);
    SameForOthers(w.store, w'.store, c.start, KeptIdsOf(c.start, c.keep), id);
    hide SameFor;
    assert PruneView(w'.store, w'.procs[p]);
  }

  lemma PruneRefsKeeps(w: World, p: Pid)
    requires Inv(w) && Enabled(w, PruneRefs(p))
    ensures Inv(Apply(w, PruneRefs(p)))
  {
    hide BoltView;
    hide LockView;
    hide Restorable;
    hide LogInv;
    hide IndexIds;
    var w' := Apply(w, PruneRefs(p));
    PruneRefsView(w, p);
    UnindexedRefsGone(w, w', w.procs[p].start.index[w.procs[p].p].id);
    GcStep(w, w', p, w'.procs[p]);
  }

  lemma PruneRefsView(w: World, p: Pid)
    requires IsAt(w, p) && BoltView(w, w.procs[p]) && Enabled(w, PruneRefs(p))
    ensures var w' := Apply(w, PruneRefs(p)); BoltView(w', w'.procs[p]) && LockView(w.store.index, w'.procs[p])
    ensures w.procs[p].p < |w.procs[p].start.index| && w.procs[p].start.index[w.procs[p].p].id !in w.store.manifests
  {
    hide IsKeepChoice;
    hide IndexIds;
    var c := w.procs[p];
    var w' := Apply(w, PruneRefs(p));
    var id := c.start.index[c.p].id;
    assert PruneView(w.store, c);
    PruningAt(c.start, c.keep, c.p);
    SameForOthers(w.store, w'.store, c.start, KeptIdsOf(c.start, c.keep), id);
    hide SameFor;
    assert PruneView(w'.store, w'.procs[p]);
  }

  /** Deleting the doc refs of a snapshot that has no manifest any more. */
  lemma UnindexedRefsGone(w: World, w': World, id: Id)
    requires IndexInv(w) && PublishedInv(w) && id !in w.store.manifests
    requires w'.content == w.content && w'.damaged == w.damaged
    requires w'.store == w.store.(refs := DropRefs(w.store.refs, id))
    ensures IndexInv(w') && PublishedInv(w')
  {
  }

  lemma SaveKeptKeeps(w: World, p: Pid)
    requires Inv(w) && Enabled(w, SaveKept(p))
    ensures Inv(Apply(w, SaveKept(p)))
  {
    hide BoltView;
    hide LockView;
    hide Restorable;
    hide Kept;
    hide IndexIds;
    hide LogInv;
    hide Replay;
    var w' := Apply(w, SaveKept(p));
    SaveKeptView(w, p);
    OthersHoldNoBolt(w, w', p);
    LockHolderStep(w, w', p, w'.procs[p]);
    IndexStep(w, w', p, w'.procs[p], Prune(w.procs[p].keep));
    Shrunk(w, w');
  }

  lemma SaveKeptView(w: World, p: Pid)
    requires IsAt(w, p) && BoltView(w, w.procs[p]) && Enabled(w, SaveKept(p)) && DistinctIndex(w.store.index)
    ensures var w' := Apply(w, SaveKept(p)); BoltView(w', w'.procs[p]) && LockView(w'.store.index, w'.procs[p])
    ensures var w' := Apply(w, SaveKept(p)); IndexIds(w'.store.index) <= IndexIds(w.store.index) && DistinctIndex(w'.store.index)
    ensures w.store.index == w.procs[p].start.index
  {
    hide IsKeepChoice;
    hide SameFor;
    var c := w.procs[p];
    var w' := Apply(w, SaveKept(p));
    assert PruneView(w.store, c);
    KeptIds(c.start.index, c.keep);
    KeptDistinct(c.start.index, c.keep);
    SameForFiles(w.store, w'.store, c.start, KeptIdsOf(c.start, c.keep));
    forall id | id in w.store.manifests ensures id in KeptIdsOf(c.start, c.keep) {
      var s :| s in c.start.index && s.id == id;
      var j :| 0 <= j < |c.start.index| && c.start.index[j] == s;
    }
    assert KeptView(w'.store, c.start, c.keepLast, c.keep);
  }

  lemma SameForFiles(s: Store, s': Store, start: Store, ids: set<Id>)
    requires SameFor(s, start, ids) && s'.manifests == s.manifests && s'.refs == s.refs
    ensures SameFor(s', start, ids)
  {
  }

  lemma Shrunk(w: World, w': World)
    requires PublishedInv(w) && IndexInv(w) && DistinctIndex(w'.store.index)
    requires w'.content == w.content && w'.damaged == w.damaged
    requires w'.store == w.store.(index := w'.store.index) && IndexIds(w'.store.index) <= IndexIds(w.store.index)
    ensures PublishedInv(w') && IndexInv(w')
  {
  }

  /** What the kept snapshots reference has not changed since the pass began. */
  lemma LiveNow(s: Store, start: Store, keepLast: int, keep: set<Id>)
    requires KeptView(s, start, keepLast, keep)
    ensures Referenced(s, IndexIds(s.index)) == Live(start, keep)
    ensures IndexIds(s.index) == KeptIdsOf(start, keep)
  {
    hide IsKeepChoice;
    KeptIds(start.index, keep);
  }

  lemma MarkKeeps(w: World, p: Pid)
    requires Inv(w) && Enabled(w, Mark(p))
    ensures Inv(Apply(w, Mark(p)))
  {
    hide BoltView;
    hide LockView;
    hide Restorable;
    var w' := Apply(w, Mark(p));
    MarkView(w, p);
    MoveOnly(w, w', p, w'.procs[p]);
  }

  lemma MarkView(w: World, p: Pid)
    requires IsAt(w, p) && BoltView(w, w.procs[p]) && Enabled(w, Mark(p))
    ensures var w' := Apply(w, Mark(p)); BoltView(w, w'.procs[p]) && LockView(w.store.index, w'.procs[p])
  {
    hide Referenced;
    hide KeptView;
    var c := w.procs[p];
    assert KeptView(w.store, c.start, c.keepLast, c.keep);
    LiveNow(w.store, c.start, c.keepLast, c.keep);
    assert SweepView(w.store, Apply(w, Mark(p)).procs[p]);
  }

  lemma SweepOneKeeps(w: World, p: Pid, h: Hash)
    requires Inv(w) && Enabled(w, SweepOne(p, h))
    ensures Inv(Apply(w, SweepOne(p, h)))
  {
    hide BoltView;
    hide LockView;
    var w' := Apply(w, SweepOne(p, h));
    SweepOneView(w, p, h);
    QuietStep(w, w', p, w'.procs[p]);
    BoltHolderStep(w, w', p);
    GarbageGone(w, w', h);
  }

  lemma SweepOneView(w: World, p: Pid, h: Hash)
    requires IsAt(w, p) && BoltView(w, w.procs[p]) && Enabled(w, SweepOne(p, h))
    ensures var w' := Apply(w, SweepOne(p, h)); BoltView(w', w'.procs[p]) && LockView(w'.store.index, w'.procs[p])
    ensures h !in Referenced(w.store, IndexIds(w.store.index))
  {
    hide Referenced;
    hide IsKeepChoice;
    var c := w.procs[p];
    var w' := Apply(w, SweepOne(p, h));
    assert SweepView(w.store, c);
    LiveNow(w.store, c.start, c.keepLast, c.keep);
    SameForFiles(w.store, w'.store, c.start, KeptIdsOf(c.start, c.keep));
    hide SameFor;
    assert KeptView(w'.store, c.start, c.keepLast, c.keep);
    hide KeptView;
    assert SweepView(w'.store, w'.procs[p]);
  }

  /** Sweeping an object no indexed snapshot references disturbs no published one. */
  lemma GarbageGone(w: World, w': World, h: Hash)
    requires PublishedInv(w) && h !in Referenced(w.store, IndexIds(w.store.index))
    requires w'.content == w.content && w'.damaged == w.damaged
    requires w'.store == w.store.(objects := w.store.objects - {h})
    ensures PublishedInv(w')
  {
  }

  // ---- Every step, every run ----

  lemma StepKeeps(w: World, step: Step)
    requires Inv(w) && Enabled(w, step)
    ensures Inv(Apply(w, step))
  {
    hide Inv;
    match step
    case StartCreate(p, plan) => StartCreateKeeps(w, p, plan);
    case PutObjects(p, batch) => PutObjectsKeeps(w, p, batch);
    case WriteChunk(p, n) => WriteChunkKeeps(w, p, n);
    case NextCollection(p) => NextCollectionKeeps(w, p);
    case SaveManifest(p) => SaveManifestKeeps(w, p);
    case StartTag(p, query, tag) => StartOtherKeeps(w, p, TagWaiting(query, tag));
    case StartGc(p, keepLast) => StartOtherKeeps(w, p, GcWaiting(keepLast));
    case AcquireLock(p) => AcquireLockKeeps(w, p);
    case LoadIndex(p, todo) => LoadIndexKeeps(w, p, todo);
    case PublishIndex(p) => PublishIndexKeeps(w, p);
    case TagManifest(p) => TagManifestKeeps(w, p);
    case SaveTag(p) => SaveTagKeeps(w, p);
    case RemoveAbandoned(p) => RemoveAbandonedKeeps(w, p);
    case DropAbandonedRefs(p) => DropAbandonedRefsKeeps(w, p);
    case Decide(p, sorted) => DecideKeeps(w, p, sorted);
    case SkipKept(p) => SkipKeptKeeps(w, p);
    case PruneManifest(p) => PruneManifestKeeps(w, p);
    case PruneRefs(p) => PruneRefsKeeps(w, p);
    case SaveKept(p) => SaveKeptKeeps(w, p);
    case Mark(p) => MarkKeeps(w, p);
    case SweepOne(p, h) => SweepOneKeeps(w, p, h);
    case Return(p) => ReturnKeeps(w, p);
    case Unlock(p) => UnlockKeeps(w, p);
    case Close(p) => GoneKeeps(w, p);
    case Crash(p) => GoneKeeps(w, p);
    case ReclaimLock => ReclaimLockKeeps(w);
  }

  lemma {:induction false} RunKeeps(w: World, steps: seq<Step>)
    requires Inv(w) && IsRun(w, steps)
    ensures Inv(Final(w, steps))
    decreases |steps|
  {
    hide Inv;
    if steps != [] {
      StepKeeps(w, steps[0]);
      RunKeeps(Apply(w, steps[0]), steps[1..]);
    }
  }
}
