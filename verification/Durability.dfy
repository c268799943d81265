/** What the protocol promises a user, over every run: snapshots stay restorable, no update is lost, recovery removes
    nothing that will be published, and an interrupted collection can be run again. */
module Durability {
  import opened ByteStrings
  import opened DocRefs
  import opened Permutations
  import opened Scope
  import opened Protocol
  import opened Lifecycle
  import opened Gc

  /** The world after a run from an empty scope. */
  ghost function After(steps: seq<Step>): World
    requires IsRun(EMPTY_WORLD, steps)
  {
    Final(EMPTY_WORLD, steps)
  }

  lemma AfterInv(steps: seq<Step>)
    requires IsRun(EMPTY_WORLD, steps)
    ensures Inv(After(steps))
  {
    InvEmpty();
    hide Inv;
    RunKeeps(EMPTY_WORLD, steps);
  }

  // ---- Published snapshots ----

  /** After any run, crashes included, an indexed snapshot is restorable to exactly what its Create recorded, unless a
      pruning pass has begun to delete it. */
  lemma PublishedStaysRestorable(steps: seq<Step>)
    requires IsRun(EMPTY_WORLD, steps)
    ensures var w := After(steps); forall id :: id in IndexIds(w.store.index) ==>
      id in w.content && (Restorable(w.store, id, w.content[id]) <==> id !in w.damaged)
  {
    AfterInv(steps);
    var w := After(steps);
    forall id | id in IndexIds(w.store.index)
      ensures id in w.content && (Restorable(w.store, id, w.content[id]) <==> id !in w.damaged)
    {
      RestorableIffUndamaged(w, id);
    }
  }

  lemma RestorableIffUndamaged(w: World, id: Id)
    requires Inv(w) && id in IndexIds(w.store.index)
    ensures id in w.content && (Restorable(w.store, id, w.content[id]) <==> id !in w.damaged)
    ensures id in w.store.manifests <==> id !in w.damaged
  {
  }

  /** What a Create set out to record never changes under its ID. */
  lemma ContentIsFixed(w: World, step: Step)
    requires Enabled(w, step)
    ensures forall id :: id in w.content ==> id in Apply(w, step).content && Apply(w, step).content[id] == w.content[id]
  {
  }

  /** No pass stops while it is pruning. */
  ghost predicate PassesComplete(w: World, steps: seq<Step>)
    requires IsRun(w, steps)
    decreases |steps|
  {
    steps != [] ==>
      && (steps[0].Crash? || steps[0].Return? ==> IsAt(w, steps[0].p) && !w.procs[steps[0].p].GcPrune?)
      && PassesComplete(Apply(w, steps[0]), steps[1..])
  }

  /** Whatever is damaged and still indexed is being dropped by a pass at work. */
  ghost predicate DamageInProgress(w: World)
  {
    forall id :: id in w.damaged && id in IndexIds(w.store.index) ==>
      exists p :: p in w.procs && Dropping(w.procs[p], id)
  }

  predicate Dropping(c: Proc, id: Id)
  {
    c.GcPrune? && id !in c.keep
  }

  lemma NoNewDamage(w: World, w': World)
    requires DamageInProgress(w) && w'.damaged == w.damaged
    requires forall id :: id in IndexIds(w'.store.index) && id in w.damaged ==> id in IndexIds(w.store.index)
    requires forall p, id :: p in w.procs && Dropping(w.procs[p], id) ==> p in w'.procs && Dropping(w'.procs[p], id)
    ensures DamageInProgress(w')
  {
  }

  lemma PruneManifestDamage(w: World, p: Pid)
    requires Inv(w) && DamageInProgress(w) && Enabled(w, PruneManifest(p))
    ensures DamageInProgress(Apply(w, PruneManifest(p)))
  {
    hide Inv;
    hide IndexIds;
    var w' := Apply(w, PruneManifest(p));
    forall id | id in w'.damaged && id in IndexIds(w'.store.index)
      ensures exists q :: q in w'.procs && Dropping(w'.procs[q], id)
    {
      if id == w.procs[p].start.index[w.procs[p].p].id {
        assert Dropping(w'.procs[p], id);
      } else {
        var q :| q in w.procs && Dropping(w.procs[q], id);
        assert Dropping(w'.procs[q], id);
      }
    }
  }

  lemma DamageIsDropped(w: World, p: Pid)
    requires LocksInv(w) && DamageInProgress(w) && p in w.procs && w.procs[p].GcPrune?
    ensures forall id :: id in w.damaged && id in IndexIds(w.store.index) ==> id !in w.procs[p].keep
  {
  }

  lemma SaveKeptDamage(w: World, p: Pid)
    requires Inv(w) && DamageInProgress(w) && Enabled(w, SaveKept(p))
    ensures DamageInProgress(Apply(w, SaveKept(p)))
  {
    var c := w.procs[p];
    var w' := Apply(w, SaveKept(p));
    DamageIsDropped(w, p);
    assert w.store.index == c.start.index by {
      assert BoltView(w, c);
    }
    hide Inv;
    KeptIds(c.start.index, c.keep);
    hide IndexIds;
    hide Kept;
    assert w'.damaged * IndexIds(w'.store.index) == {};
  }

  lemma PublishDamage(w: World, p: Pid)
    requires Inv(w) && DamageInProgress(w) && Enabled(w, PublishIndex(p))
    ensures DamageInProgress(Apply(w, PublishIndex(p)))
  {
    var w' := Apply(w, PublishIndex(p));
    var plan := w.procs[p].plan;
    PublishIndexView(w, p);
    hide Inv;
    hide Restorable;
    hide BoltView;
    hide LockView;
    assert forall s :: s in w'.store.index ==> s in w.store.index || s.id == plan.id;
    NoNewDamage(w, w');
  }

  lemma SaveTagDamage(w: World, p: Pid)
    requires Inv(w) && DamageInProgress(w) && Enabled(w, SaveTag(p))
    ensures DamageInProgress(Apply(w, SaveTag(p)))
  {
    var c := w.procs[p];
    var w' := Apply(w, SaveTag(p));
    SaveTagView(w, p);
    SameIdsTagged(w.store.index, c.at, c.tag);
    hide Inv;
    hide IndexIds;
    hide WithTag;
    NoNewDamage(w, w');
  }

  lemma DamageKeeps(w: World, step: Step)
    requires Inv(w) && Enabled(w, step) && DamageInProgress(w)
    requires step.Crash? || step.Return? ==> IsAt(w, step.p) && !w.procs[step.p].GcPrune?
    ensures DamageInProgress(Apply(w, step))
  {
    hide *;
    match step
    case PublishIndex(p) => PublishDamage(w, p);
    case SaveTag(p) => SaveTagDamage(w, p);
    case PruneManifest(p) => PruneManifestDamage(w, p);
    case SaveKept(p) => SaveKeptDamage(w, p);
    case _ => QuietDamage(w, step);
  }

  lemma QuietDamage(w: World, step: Step)
    requires Inv(w) && Enabled(w, step) && DamageInProgress(w)
    requires !step.PublishIndex? && !step.SaveTag? && !step.PruneManifest? && !step.SaveKept?
    requires step.Crash? || step.Return? ==> IsAt(w, step.p) && !w.procs[step.p].GcPrune?
    ensures DamageInProgress(Apply(w, step))
  {
    assert forall p :: p in w.procs ==> p in w.started;
    hide *;
    OtherStepsQuiet(w, step);
    PruningGoesOn(w, step);
    NoNewDamage(w, Apply(w, step));
  }

  lemma OtherStepsQuiet(w: World, step: Step)
    requires Enabled(w, step) && !step.PublishIndex? && !step.SaveTag? && !step.PruneManifest? && !step.SaveKept?
    ensures Apply(w, step).store.index == w.store.index && Apply(w, step).damaged == w.damaged
  {
    hide FindSpec;
  }

  lemma PruningGoesOn(w: World, step: Step)
    requires Enabled(w, step) && !step.SaveKept? && forall p :: p in w.procs ==> p in w.started
    requires step.Crash? || step.Return? ==> IsAt(w, step.p) && !w.procs[step.p].GcPrune?
    ensures var w' := Apply(w, step); forall p, id :: p in w.procs && Dropping(w.procs[p], id) ==> p in w'.procs && Dropping(w'.procs[p], id)
  {
    hide FindSpec;
  }

  lemma {:induction false} DamageOverRun(w: World, steps: seq<Step>)
    requires Inv(w) && DamageInProgress(w) && IsRun(w, steps) && PassesComplete(w, steps)
    ensures DamageInProgress(Final(w, steps))
    decreases |steps|
  {
    hide Inv;
    hide DamageInProgress;
    if steps != [] {
      DamageKeeps(w, steps[0]);
      StepKeeps(w, steps[0]);
      DamageOverRun(Apply(w, steps[0]), steps[1..]);
    }
  }

  /** With Create and Tag crashing anywhere, and passes that finish their pruning: every indexed snapshot is restorable,
      except those a pass at work this moment has chosen to drop. */
  lemma NoSnapshotIsLost(steps: seq<Step>)
    requires IsRun(EMPTY_WORLD, steps) && PassesComplete(EMPTY_WORLD, steps)
    ensures var w := After(steps); forall id :: id in IndexIds(w.store.index) ==>
      id in w.content && (Restorable(w.store, id, w.content[id]) || exists p :: p in w.procs && Dropping(w.procs[p], id))
  {
    PublishedStaysRestorable(steps);
    InvEmpty();
    hide Inv;
    hide Restorable;
    DamageOverRun(EMPTY_WORLD, steps);
  }

  // ---- Updates ----

  /** The index is the result of every publish, tag and prune so far, one at a time in the order the lock was taken. */
  lemma NoUpdateIsLost(steps: seq<Step>)
    requires IsRun(EMPTY_WORLD, steps)
    ensures var w := After(steps);
      && w.store.index == Replay(w.log)
      && forall i, j :: 0 <= i < j < |w.log| ==> w.log[i].ticket < w.log[j].ticket <= w.tickets
  {
    AfterInv(steps);
  }

  /** An update logged before position n has not been pruned away since. */
  predicate SparedFrom(log: seq<Entry>, n: nat, id: Id)
  {
    forall j :: n <= j < |log| && log[j].update.Prune? ==> id in log[j].update.keep
  }

  predicate HasTag(index: seq<Summary>, id: Id, tag: Bytes)
  {
    exists i :: 0 <= i < |index| && index[i].id == id && tag in index[i].tags
  }

  lemma UpdateKeepsId(index: seq<Summary>, u: Update, id: Id)
    requires id in IndexIds(index) && (u.Prune? ==> id in u.keep)
    ensures id in IndexIds(ApplyUpdate(index, u))
  {
    var i :| 0 <= i < |index| && index[i].id == id;
    match u
    case Publish(s) => assert (index + [s])[i] == index[i];
    case AddTag(x, tag) => assert TagById(index, x, tag)[i].id == id;
    case Prune(keep) => KeptIds(index, keep);
  }

  lemma UpdateKeepsTag(index: seq<Summary>, u: Update, id: Id, tag: Bytes)
    requires HasTag(index, id, tag) && (u.Prune? ==> id in u.keep)
    ensures HasTag(ApplyUpdate(index, u), id, tag)
  {
    var i :| 0 <= i < |index| && index[i].id == id && tag in index[i].tags;
    match u
    case Publish(s) => assert (index + [s])[i] == index[i];
    case AddTag(x, t) => assert TagById(index, x, t)[i].id == id;
    case Prune(keep) =>
      KeptMembers(index, keep, index[i]);
      var j :| 0 <= j < |Kept(index, keep)| && Kept(index, keep)[j] == index[i];
  }

  /** A published snapshot stays listed until a pass drops it, whatever was written in between. */
  lemma {:induction false} PublishSurvives(log: seq<Entry>, i: nat)
    requires i < |log| && log[i].update.Publish? && SparedFrom(log, i + 1, log[i].update.s.id)
    ensures log[i].update.s.id in IndexIds(Replay(log))
    decreases |log|
  {
    hide ApplyUpdate;
    var last := |log| - 1;
    var before := Replay(log[..last]);
    if i == last {
      assert ApplyUpdate(before, log[last].update) == before + [log[i].update.s] by {
        PublishAppends(before, log[i].update.s);
      }
      assert (before + [log[i].update.s])[|before|] == log[i].update.s;
    } else {
      PublishSurvives(log[..last], i);
      UpdateKeepsId(before, log[last].update, log[i].update.s.id);
    }
  }

  lemma PublishAppends(index: seq<Summary>, s: Summary)
    ensures ApplyUpdate(index, Publish(s)) == index + [s]
  {
  }

  /** A tag put on a listed snapshot stays on it as long as the snapshot is listed. */
  lemma {:induction false} TagSurvives(log: seq<Entry>, i: nat)
    requires i < |log| && log[i].update.AddTag? && log[i].update.id in IndexIds(Replay(log[..i]))
    requires SparedFrom(log, i + 1, log[i].update.id)
    ensures HasTag(Replay(log), log[i].update.id, log[i].update.tag)
    decreases |log|
  {
    hide ApplyUpdate;
    hide HasTag;
    var last := |log| - 1;
    var before := Replay(log[..last]);
    if i == last {
      Tagged(before, log[i].update.id, log[i].update.tag);
    } else {
      assert log[..last][..i] == log[..i];
      TagSurvives(log[..last], i);
      UpdateKeepsTag(before, log[last].update, log[i].update.id, log[i].update.tag);
    }
  }

  lemma Tagged(index: seq<Summary>, id: Id, tag: Bytes)
    requires id in IndexIds(index)
    ensures HasTag(ApplyUpdate(index, AddTag(id, tag)), id, tag)
  {
    var i :| 0 <= i < |index| && index[i].id == id;
    assert tag in TagById(index, id, tag)[i].tags;
  }

  // ---- Recovery of abandoned manifests ----

  /** No process is working on this snapshot, and nothing lists it. */
  ghost predicate Dead(w: World, id: Id)
  {
    && id in w.content && id !in w.store.manifests && id !in IndexIds(w.store.index)
    && forall p :: p in w.procs ==> !WorksOn(w.procs[p], id)
  }

  predicate WorksOn(c: Proc, id: Id)
  {
    (c.Scanning? || c.Saved? || c.PubLocked? || c.PubLoaded?) && c.plan.id == id
  }

  lemma DeadStays(w: World, step: Step, id: Id)
    requires Inv(w) && Enabled(w, step) && Dead(w, id)
    ensures Dead(Apply(w, step), id)
  {
    var w' := Apply(w, step);
    StepIndexIds(w, step);
    hide Inv;
    hide IndexIds;
    hide FindSpec;
    forall p | p in w'.procs ensures !WorksOn(w'.procs[p], id) {
      if WorksOn(w'.procs[p], id) {
        StepWorksOn(w, step, p, id);
      }
    }
    hide WorksOn;
    if id in w'.store.manifests {
      StepManifests(w, step, id);
    }
  }

  lemma StepWorksOn(w: World, step: Step, p: Pid, id: Id)
    requires Enabled(w, step) && p in Apply(w, step).procs && WorksOn(Apply(w, step).procs[p], id)
    ensures (p in w.procs && WorksOn(w.procs[p], id)) || (step.StartCreate? && step.plan.id == id)
  {
    hide FindSpec;
    hide IndexIds;
    hide HoldsBolt;
    hide HoldsLock;
    hide KeepSet;
    hide Kept;
    hide Referenced;
    hide DropRefs;
    hide CountsOf;
  }

  lemma StepManifests(w: World, step: Step, id: Id)
    requires Enabled(w, step) && id !in w.store.manifests && id in Apply(w, step).store.manifests
    ensures step.SaveManifest? && WorksOn(w.procs[step.p], id)
  {
    hide FindSpec;
    hide IndexIds;
  }

  lemma StepIndexIds(w: World, step: Step)
    requires Inv(w) && Enabled(w, step)
    ensures forall id :: id in IndexIds(Apply(w, step).store.index) && id !in IndexIds(w.store.index) ==>
      step.PublishIndex? && WorksOn(w.procs[step.p], id)
  {
    hide BoltView;
    hide LockView;
    hide Restorable;
    hide LogInv;
    hide FindSpec;
    var w' := Apply(w, step);
    match step
    case PublishIndex(p) =>
      PublishIndexView(w, p);
      assert forall s :: s in w'.store.index ==> s in w.store.index || s.id == w.procs[p].plan.id;
    case SaveTag(p) =>
      SaveTagView(w, p);
      SameIdsTagged(w.store.index, w.procs[p].at, w.procs[p].tag);
    case SaveKept(p) =>
      SaveKeptView(w, p);
    case PruneManifest(_) =>
    case _ => OtherStepsQuiet(w, step);
  }

  lemma RecoveredIsDead(w: World, p: Pid)
    requires Inv(w) && Enabled(w, RemoveAbandoned(p))
    ensures Dead(Apply(w, RemoveAbandoned(p)), w.procs[p].todo[0])
  {
    var id := w.procs[p].todo[0];
    var w' := Apply(w, RemoveAbandoned(p));
    RemoveAbandonedView(w, p);
    assert id in w.store.manifests by {
      assert BoltView(w, w.procs[p]);
    }
    hide BoltView;
    hide LockView;
    hide Restorable;
    hide LogInv;
    forall q | q in w'.procs ensures !WorksOn(w'.procs[q], id) {
      assert q != p ==> !HoldsBolt(w.procs[q]);
    }
  }

  lemma {:induction false} DeadForever(w: World, steps: seq<Step>, id: Id)
    requires Inv(w) && IsRun(w, steps) && Dead(w, id)
    ensures Dead(Final(w, steps), id)
    decreases |steps|
  {
    hide Inv;
    hide Dead;
    if steps != [] {
      StepKeeps(w, steps[0]);
      DeadStays(w, steps[0], id);
      DeadForever(Apply(w, steps[0]), steps[1..], id);
    }
  }

  /** Recovery never removes the manifest of a snapshot that is published later. */
  lemma RecoveryIsSafe(before: seq<Step>, p: Pid, after: seq<Step>)
    requires IsRun(EMPTY_WORLD, before) && Enabled(After(before), RemoveAbandoned(p))
    requires IsRun(Apply(After(before), RemoveAbandoned(p)), after)
    ensures var w := After(before); var w' := Apply(w, RemoveAbandoned(p)); var id := w.procs[p].todo[0];
      id !in IndexIds(w.store.index) && id !in IndexIds(Final(w', after).store.index)
  {
    AfterInv(before);
    var w := After(before);
    RemoveAbandonedView(w, p);
    hide Inv;
    RecoveredIsDead(w, p);
    StepKeeps(w, RemoveAbandoned(p));
    DeadForever(Apply(w, RemoveAbandoned(p)), after, w.procs[p].todo[0]);
  }

  // ---- A pass and its outcome ----

  /** What a pass is for: the kept lines of the index, their manifests, and the objects they reference. */
  datatype Outcome = Outcome(index: seq<Summary>, manifests: map<Id, Manifest>, objects: set<Hash>)

  function OutcomeOf(s: Store): Outcome
  {
    Outcome(s.index, s.manifests, s.objects)
  }

  function Target(start: Store, keep: set<Id>): Outcome
  {
    Outcome(Kept(start.index, keep), OnlyManifests(start.manifests, KeptIdsOf(start, keep)), start.objects * Live(start, keep))
  }

  /** The pass is past its choice of what to keep. */
  predicate HasChosen(c: Proc)
  {
    c.GcPrune? || c.GcMark? || c.GcSweep?
  }

  /** At every step boundary of a pass, a snapshot it keeps is restorable exactly if it was when the pass began. */
  lemma KeptStaysRestorable(steps: seq<Step>, p: Pid, id: Id)
    requires IsRun(EMPTY_WORLD, steps) && p in After(steps).procs && HasChosen(After(steps).procs[p])
    requires var c := After(steps).procs[p]; id in KeptIdsOf(c.start, c.keep)
    ensures var w := After(steps); var c := w.procs[p];
      id in IndexIds(w.store.index) && id in w.content &&
      (Restorable(w.store, id, w.content[id]) <==> id in c.start.manifests)
  {
    AfterInv(steps);
    var w := After(steps);
    var c := w.procs[p];
    ChosenIsIndexed(w, p, id);
    hide Inv;
    RestorableIffUndamaged(w, id);
  }

  lemma ChosenIsIndexed(w: World, p: Pid, id: Id)
    requires Inv(w) && p in w.procs && HasChosen(w.procs[p]) && id in KeptIdsOf(w.procs[p].start, w.procs[p].keep)
    ensures id in IndexIds(w.store.index) && (id in w.store.manifests <==> id in w.procs[p].start.manifests)
  {
    var c := w.procs[p];
    assert BoltView(w, c);
    hide IsKeepChoice;
    if !c.GcPrune? {
      LiveNow(w.store, c.start, c.keepLast, c.keep);
    }
  }

  /** A pass that has swept its garbage leaves exactly what it kept. */
  lemma SweepIsExact(steps: seq<Step>, p: Pid)
    requires IsRun(EMPTY_WORLD, steps) && p in After(steps).procs
    requires var c := After(steps).procs[p]; c.GcSweep? && c.garbage == {}
    ensures var w := After(steps); var c := w.procs[p];
      && OutcomeOf(w.store) == Target(c.start, c.keep)
      && SameFor(w.store, c.start, KeptIdsOf(c.start, c.keep))
      && IsKeepChoice(c.start.index, c.keepLast, c.keep)
      && (Determined(c.start.index, c.keepLast) ==> c.keep == KeepIds(c.start.index, c.keepLast))
  {
    AfterInv(steps);
    var w := After(steps);
    var c := w.procs[p];
    SweptView(w, p);
    if Determined(c.start.index, c.keepLast) {
      IdsDistinct(c.start.index);
      ChoiceIsKeepIds(c.start.index, c.keepLast, c.keep);
    }
  }

  lemma SweptView(w: World, p: Pid)
    requires Inv(w) && p in w.procs && w.procs[p].GcSweep? && w.procs[p].garbage == {}
    ensures var c := w.procs[p]; OutcomeOf(w.store) == Target(c.start, c.keep) && IsKeepChoice(c.start.index, c.keepLast, c.keep)
    ensures var c := w.procs[p]; SameFor(w.store, c.start, KeptIdsOf(c.start, c.keep)) && DistinctIndex(c.start.index)
  {
    var c := w.procs[p];
    assert BoltView(w, c);
    hide Inv;
    hide IsKeepChoice;
    hide Referenced;
    hide Kept;
    LiveNow(w.store, c.start, c.keepLast, c.keep);
    assert w.store.objects == c.start.objects * Live(c.start, c.keep);
    assert w.store.manifests == OnlyManifests(c.start.manifests, KeptIdsOf(c.start, c.keep));
  }

  /** The pass as the class runs it in one go ends where the protocol's pass ends, and it fails exactly where that one
      cannot mark. */
  method PassInOneGo(files: ScopeFiles, keepLast: int) returns (ok: bool, ghost keep: set<Id>)
    modifies files
    ensures IsKeepChoice(old(files.index), keepLast, keep)
    ensures ok <==> KeptIdsOf(old(files.Value()), keep) <= old(files.Value()).manifests.Keys
    ensures ok ==> OutcomeOf(files.Value()) == Target(old(files.Value()), keep)
    ensures SameFor(files.Value(), old(files.Value()), KeptIdsOf(old(files.Value()), keep))
    ensures forall id, coll :: (id, coll) in files.refs <==>
      (id, coll) in old(files.refs) && (if id in IndexIds(old(files.index)) then id in keep else id !in old(files.manifests))
    ensures forall k :: k in files.refs ==> k in old(files.refs) && files.refs[k] == old(files.refs)[k]
  {
    ghost var start := Store(files.index, files.manifests, files.refs, files.objects);
    assert start == files.Value();
    hide *;
    var r;
    r, ok, keep := files.GcLocked(keepLast);
    PassOutcome(start, Store(files.index, files.manifests, files.refs, files.objects), keep, ok);
    PassRefsAre(start, files.refs, keep);
    WholeValue(files);
  }

  lemma PassRefsAre(start: Store, refs: RefTable, keep: set<Id>)
    requires refs == WithoutRefsOf(start.refs, Abandoned(start) + Pruned(start.index, keep))
    ensures forall id, coll :: (id, coll) in refs <==>
      (id, coll) in start.refs && (if id in IndexIds(start.index) then id in keep else id !in start.manifests)
    ensures forall k :: k in refs ==> k in start.refs && refs[k] == start.refs[k]
  {
    hide IndexIds;
  }

  lemma WholeValue(files: ScopeFiles)
    ensures files.Value() == Store(files.index, files.manifests, files.refs, files.objects)
  {
  }

  lemma PassOutcome(start: Store, s: Store, keep: set<Id>, ok: bool)
    requires s.index == Kept(start.index, keep)
    requires s.manifests == OnlyManifests(start.manifests, IndexIds(start.index) * keep)
    requires s.refs == WithoutRefsOf(start.refs, Abandoned(start) + Pruned(start.index, keep))
    requires ok <==> IndexIds(s.index) <= start.manifests.Keys
    requires ok ==> s.objects == start.objects * Referenced(start, IndexIds(start.index) * keep)
    ensures ok <==> KeptIdsOf(start, keep) <= start.manifests.Keys
    ensures ok ==> OutcomeOf(s) == Target(start, keep)
    ensures SameFor(s, start, KeptIdsOf(start, keep))
  {
    KeptIds(start.index, keep);
    hide Kept;
    hide IndexIds;
    hide Referenced;
  }

  // ---- Running a pass again ----

  lemma KeepIdsAreIndexed(index: seq<Summary>, keepLast: int)
    ensures KeepIds(index, keepLast) <= IndexIds(index)
  {
  }

  /** As long as the index is the old one, a rerun chooses the same snapshots and finds the same data for them. */
  lemma SameTarget(s: Store, start: Store, keep: set<Id>)
    requires s.index == start.index && s.objects == start.objects && SameFor(s, start, KeptIdsOf(start, keep))
    ensures Target(s, keep) == Target(start, keep)
  {
  }

  /** Once the index is pruned, a rerun keeps all that is left. */
  lemma RerunKeepsAll(index: seq<Summary>, keepLast: int)
    requires DistinctIndex(index)
    ensures var kept := Kept(index, KeepIds(index, keepLast));
      Kept(kept, KeepIds(kept, keepLast)) == kept && KeepIds(kept, keepLast) == IndexIds(kept)
  {
    var kept := Kept(index, KeepIds(index, keepLast));
    KeepIsStable(index, keepLast);
    KeepIdsAreIndexed(kept, keepLast);
    hide *;
    KeptAll(kept, KeepIds(kept, keepLast));
  }

  lemma KeptManifests(s: Store, start: Store, ids: set<Id>)
    requires SameFor(s, start, ids)
    ensures OnlyManifests(s.manifests, ids) == OnlyManifests(start.manifests, ids)
  {
  }

  lemma TargetFromKept(s: Store, start: Store, keepLast: int)
    requires KeptView(s, start, keepLast, KeepIds(start.index, keepLast))
    requires s.objects * Live(start, KeepIds(start.index, keepLast)) == start.objects * Live(start, KeepIds(start.index, keepLast))
    ensures Target(s, KeepIds(s.index, keepLast)) == Target(start, KeepIds(start.index, keepLast))
  {
    var keep := KeepIds(start.index, keepLast);
    RerunKeepsAll(start.index, keepLast);
    LiveNow(s, start, keepLast, keep);
    KeptManifests(s, start, KeptIdsOf(start, keep));
    assert KeptIdsOf(s, IndexIds(s.index)) == IndexIds(s.index);
    hide SameFor;
    hide KeepIds;
    hide Kept;
    hide IsKeepChoice;
    hide Referenced;
    hide IndexIds;
    hide OnlyManifests;
    hide DistinctIndex;
  }

  /** A pass between its first and its last effect. */
  predicate InPass(c: Proc)
  {
    c.GcRecover? || HasChosen(c)
  }

  lemma RecoverTarget(s: Store, c: Proc, keep: set<Id>)
    requires c.GcRecover? && RecoverView(s, c)
    ensures Target(s, keep) == Target(c.start, keep)
  {
    SameTarget(s, c.start, keep);
  }

  lemma PruneTarget(s: Store, c: Proc)
    requires c.GcPrune? && PruneView(s, c)
    ensures Target(s, c.keep) == Target(c.start, c.keep)
  {
    SameTarget(s, c.start, c.keep);
  }

  /** If the rule determined what to keep when a pass began, it still does wherever the pass is stopped, and a pass with the
      same keepLast ends with the same. */
  lemma TargetIsStable(w: World, p: Pid)
    requires Inv(w) && p in w.procs && InPass(w.procs[p]) && Determined(w.procs[p].start.index, w.procs[p].keepLast)
    ensures var c := w.procs[p]; Target(w.store, KeepIds(w.store.index, c.keepLast)) == Target(c.start, KeepIds(c.start.index, c.keepLast))
    ensures Determined(w.store.index, w.procs[p].keepLast)
    ensures DistinctTimes(w.procs[p].start.index) ==> DistinctTimes(w.store.index)
  {
    var c := w.procs[p];
    StartIsDistinct(w, p);
    assert BoltView(w, c);
    hide Inv;
    hide SameFor;
    hide Target;
    hide Determined;
    hide KeepIds;
    hide DistinctIndex;
    hide Distinct;
    if c.GcRecover? {
      RecoverTarget(w.store, c, KeepIds(c.start.index, c.keepLast));
    } else {
      ChoiceIsKeepIds(c.start.index, c.keepLast, c.keep);
      hide IsKeepChoice;
      if c.GcPrune? {
        PruneTarget(w.store, c);
      } else {
        KeptDistinct(c.start.index, c.keep);
        DeterminedStays(c.start.index, c.keepLast);
        hide Kept;
        hide Live;
        TargetFromKept(w.store, c.start, c.keepLast);
      }
    }
  }

  lemma StartIsDistinct(w: World, p: Pid)
    requires Inv(w) && p in w.procs && InPass(w.procs[p])
    ensures DistinctIndex(w.procs[p].start.index) && Distinct(w.procs[p].start.index)
  {
    var c := w.procs[p];
    assert BoltView(w, c);
    hide IsKeepChoice;
    IdsDistinct(c.start.index);
  }

  /** Crash a pass at any boundary and run it again with the same keepLast on what it left: the index, the manifests and
      the objects end up as if nothing had happened. */
  lemma RerunReachesTarget(before: seq<Step>, p: Pid, after: seq<Step>, q: Pid)
    requires IsRun(EMPTY_WORLD, before) && p in After(before).procs && InPass(After(before).procs[p])
    requires Determined(After(before).procs[p].start.index, After(before).procs[p].keepLast)
    requires IsRun(EMPTY_WORLD, after) && q in After(after).procs
    requires var d := After(after).procs[q]; d.GcSweep? && d.garbage == {} && d.start == After(before).store
    requires After(after).procs[q].keepLast == After(before).procs[p].keepLast
    ensures var c := After(before).procs[p];
      OutcomeOf(After(after).store) == Target(c.start, KeepIds(c.start.index, c.keepLast))
  {
    AfterInv(before);
    hide Inv;
    hide Target;
    hide KeepIds;
    TargetIsStable(After(before), p);
    SweepIsExact(after, q);
  }

  /** Once a pass is through, a second one with the same keepLast finds nothing to delete. */
  lemma SecondPassDeletesNothing(start: Store, keepLast: int, s: Store)
    requires DistinctIndex(start.index) && Determined(start.index, keepLast)
    requires OutcomeOf(s) == Target(start, KeepIds(start.index, keepLast))
    requires SameFor(s, start, KeptIdsOf(start, KeepIds(start.index, keepLast)))
    ensures Abandoned(s) == {} && Determined(s.index, keepLast)
    ensures DistinctTimes(start.index) ==> DistinctTimes(s.index)
    ensures Target(s, KeepIds(s.index, keepLast)) == OutcomeOf(s)
  {
    var keep := KeepIds(start.index, keepLast);
    var ids := KeptIdsOf(start, keep);
    KeptIds(start.index, keep);
    KeptDistinct(start.index, keep);
    DeterminedStays(start.index, keepLast);
    RerunKeepsAll(start.index, keepLast);
    KeepIdsAreIndexed(start.index, keepLast);
    assert s.manifests == OnlyManifests(start.manifests, ids);
    hide KeepIds;
    hide Kept;
    hide IndexIds;
    hide DistinctIndex;
    hide DistinctTimes;
    hide Determined;
    assert IndexIds(s.index) == ids;
    assert KeptIdsOf(s, IndexIds(s.index)) == ids;
    ReferencedSame(start, s, ids);
    OnlyTwice(start.manifests, ids);
    hide OnlyManifests;
    hide Referenced;
  }

  lemma OnlyTwice(manifests: map<Id, Manifest>, ids: set<Id>)
    ensures OnlyManifests(OnlyManifests(manifests, ids), ids) == OnlyManifests(manifests, ids)
  {
  }

  // ---- When a pass gets stuck ----

  /** A pass can go on to mark exactly if every snapshot it kept still has its manifest. */
  lemma MarkNeedsManifests(steps: seq<Step>, p: Pid)
    requires IsRun(EMPTY_WORLD, steps) && p in After(steps).procs && After(steps).procs[p].GcMark?
    ensures var w := After(steps); var c := w.procs[p];
      Enabled(w, Mark(p)) <==> KeptIdsOf(c.start, c.keep) <= c.start.manifests.Keys
  {
    AfterInv(steps);
    var w := After(steps);
    var c := w.procs[p];
    assert KeptView(w.store, c.start, c.keepLast, c.keep) by {
      assert BoltView(w, c);
    }
    hide Inv;
    hide IsKeepChoice;
    LiveNow(w.store, c.start, c.keepLast, c.keep);
  }

  /** Rerun with the same keepLast, a pass that was stopped anywhere gets past marking exactly if the snapshots it keeps had
      their manifests when the first pass began: it does not trip over what that pass deleted. */
  lemma RerunCanMark(before: seq<Step>, p: Pid, after: seq<Step>, q: Pid)
    requires IsRun(EMPTY_WORLD, before) && p in After(before).procs && InPass(After(before).procs[p])
    requires Determined(After(before).procs[p].start.index, After(before).procs[p].keepLast)
    requires IsRun(EMPTY_WORLD, after) && q in After(after).procs && After(after).procs[q].GcMark?
    requires var d := After(after).procs[q]; d.start == After(before).store && d.keepLast == After(before).procs[p].keepLast
    ensures var c := After(before).procs[p];
      Enabled(After(after), Mark(q)) <==> KeptIdsOf(c.start, KeepIds(c.start.index, c.keepLast)) <= c.start.manifests.Keys
  {
    AfterInv(before);
    AfterInv(after);
    var c, d := After(before).procs[p], After(after).procs[q];
    TargetIsStable(After(before), p);
    MarkNeedsManifests(after, q);
    MarkedChoice(After(after), q);
    hide *;
    SameTargetSameManifests(d.start, KeepIds(d.start.index, d.keepLast), c.start, KeepIds(c.start.index, c.keepLast));
  }

  lemma MarkedChoice(w: World, q: Pid)
    requires Inv(w) && q in w.procs && w.procs[q].GcMark? && Determined(w.procs[q].start.index, w.procs[q].keepLast)
    ensures w.procs[q].keep == KeepIds(w.procs[q].start.index, w.procs[q].keepLast)
  {
    var d := w.procs[q];
    StartIsDistinct(w, q);
    assert IsKeepChoice(d.start.index, d.keepLast, d.keep) by {
      assert BoltView(w, d);
    }
    hide Inv;
    ChoiceIsKeepIds(d.start.index, d.keepLast, d.keep);
  }

  lemma SameTargetSameManifests(a: Store, keepA: set<Id>, b: Store, keepB: set<Id>)
    requires Target(a, keepA) == Target(b, keepB)
    ensures KeptIdsOf(a, keepA) <= a.manifests.Keys <==> KeptIdsOf(b, keepB) <= b.manifests.Keys
  {
    KeptIds(a.index, keepA);
    KeptIds(b.index, keepB);
    hide Kept;
    hide IndexIds;
    hide Live;
    var ids := KeptIdsOf(a, keepA);
    assert ids == KeptIdsOf(b, keepB);
    assert ids <= a.manifests.Keys <==> OnlyManifests(a.manifests, ids).Keys == ids;
    assert ids <= b.manifests.Keys <==> OnlyManifests(b.manifests, ids).Keys == ids;
  }

  /** A pass that crashed after deleting a manifest, rerun with a keepLast that covers the whole index, is stuck there. */
  lemma LargerKeepLastGetsStuck(before: seq<Step>, after: seq<Step>, q: Pid)
    requires IsRun(EMPTY_WORLD, before) && IsRun(EMPTY_WORLD, after) && q in After(after).procs
    requires var w := After(before); w.damaged * IndexIds(w.store.index) != {}
    requires var d := After(after).procs[q]; d.GcMark? && d.start == After(before).store && d.keepLast >= |d.start.index|
    ensures !Enabled(After(after), Mark(q))
  {
    AfterInv(before);
    AfterInv(after);
    var w := After(before);
    var d := After(after).procs[q];
    var id :| id in w.damaged * IndexIds(w.store.index);
    MarkNeedsManifests(after, q);
    RestorableIffUndamaged(w, id);
    assert IsKeepChoice(d.start.index, d.keepLast, d.keep) by {
      assert BoltView(After(after), d);
    }
    hide Inv;
    LongKeepLastKeepsAll(d.start.index, d.keepLast, d.keep);
  }

  lemma LongKeepLastKeepsAll(index: seq<Summary>, keepLast: int, keep: set<Id>)
    requires IsKeepChoice(index, keepLast, keep) && keepLast >= |index|
    ensures IndexIds(index) <= keep
  {
    var sorted :| Arranges(index, sorted) && keep == KeepSet(sorted, keepLast);
    SameSummaries(sorted, index);
    forall s | s in index ensures s.id in keep {
      assert s in sorted;
      var i :| 0 <= i < |sorted| && sorted[i] == s;
    }
  }
}
