/** What a garbage-collection pass does to the doc refs, over every run: those of the snapshots it drops go, and no others. */
module PassRefs {
  import opened DocRefs
  import opened Permutations
  import opened Scope
  import opened Protocol
  import opened Lifecycle
  import opened Durability
  import opened Gc

  /** The snapshots whose doc refs a pass has deleted so far. */
  function GoneSoFar(c: Proc): set<Id>
    requires InPass(c) && (c.GcPrune? ==> c.p <= |c.start.index|)
  {
    if c.GcRecover? then Abandoned(c.start) - Members(c.todo)
    else if c.GcPrune? then Abandoned(c.start) + Pruned(c.start.index[..c.p], c.keep)
    else Abandoned(c.start) + Pruned(c.start.index, c.keep)
  }

  ghost predicate RefsView(s: Store, c: Proc)
  {
    InPass(c) ==>
      && (c.GcPrune? ==> c.p <= |c.start.index|)
      && (c.GcRecover? ==> Members(c.todo) <= Abandoned(c.start) && Distinct(c.todo))
      && s.refs == WithoutRefsOf(c.start.refs, GoneSoFar(c))
  }

  ghost predicate RefsInv(w: World)
  {
    forall p :: p in w.procs ==> RefsView(w.store, w.procs[p])
  }

  /** Steps that neither go on with a pass nor write doc refs. */
  predicate LeavesRefs(step: Step)
  {
    !step.WriteChunk? && !step.LoadIndex? && !step.DropAbandonedRefs? && !step.Decide? && !step.SkipKept? && !step.PruneRefs? && !step.SaveKept?
  }

  lemma OtherRefs(w: World, step: Step)
    requires Enabled(w, step) && LeavesRefs(step)
    ensures Apply(w, step).store.refs == w.store.refs
  {
    hide FindSpec;
    hide HoldsBolt;
    hide HoldsLock;
    hide CountsOf;
    hide IndexIds;
    hide Referenced;
  }

  lemma OtherWork(w: World, step: Step, p: Pid)
    requires Enabled(w, step) && LeavesRefs(step) && p in Apply(w, step).procs && InPass(Apply(w, step).procs[p])
    ensures p in w.procs && InPass(w.procs[p]) && SameWork(w.procs[p], Apply(w, step).procs[p])
  {
    hide FindSpec;
    hide HoldsBolt;
    hide HoldsLock;
    hide CountsOf;
    hide IndexIds;
    hide Referenced;
  }

  /** For the doc refs the pass stands where it stood. */
  predicate SameWork(c: Proc, c': Proc)
    requires InPass(c) && InPass(c')
  {
    && c'.start == c.start && (c'.GcRecover? <==> c.GcRecover?) && (c'.GcPrune? <==> c.GcPrune?)
    && (c.GcRecover? ==> c'.todo == c.todo) && (!c.GcRecover? ==> c'.keep == c.keep) && (c.GcPrune? ==> c'.p == c.p)
  }

  lemma SameWorkSameRefs(s: Store, s': Store, c: Proc, c': Proc)
    requires InPass(c) && InPass(c') && SameWork(c, c') && s'.refs == s.refs && RefsView(s, c)
    ensures RefsView(s', c')
  {
  }

  /** The pass has the backend to itself. */
  lemma OnePass(w: World, p: Pid)
    requires LocksInv(w) && p in w.procs && HoldsBolt(w.procs[p])
    ensures forall q :: q in w.procs && InPass(w.procs[q]) ==> q == p
  {
  }

  lemma LoadedRefs(w: World, p: Pid, todo: seq<Id>)
    requires Enabled(w, LoadIndex(p, todo)) && w.procs[p].GcLocked?
    ensures var w' := Apply(w, LoadIndex(p, todo)); w'.store == w.store && RefsView(w'.store, w'.procs[p])
  {
    assert Members(todo) == Abandoned(w.store);
    RemoveNone(w.store.manifests, w.store.refs);
  }

  lemma RecoveredRefs(s: Store, c: Proc)
    requires c.GcRecover? && c.todo != [] && RefsView(s, c)
    ensures RefsView(s.(refs := DropRefs(s.refs, c.todo[0])), GcRecover(c.keepLast, c.start, c.todo[1..], false))
  {
    var (id, rest) := (c.todo[0], c.todo[1..]);
    assert c.todo == [id] + rest;
    assert Members(c.todo) == Members(rest) + {id} && id !in Members(rest);
    assert Distinct(rest);
    assert GoneSoFar(c) + {id} == Abandoned(c.start) - Members(rest);
    RemoveOne(c.start.manifests, c.start.refs, GoneSoFar(c), id);
  }

  lemma DecidedRefs(s: Store, c: Proc, keep: set<Id>)
    requires c.GcRecover? && c.todo == [] && RefsView(s, c)
    ensures RefsView(s, GcPrune(c.keepLast, c.start, keep, 0, false))
  {
    NothingPruned(c.start.index, keep);
    assert Members(c.todo) == {};
  }

  lemma PrunedRefs(s: Store, c: Proc, s': Store)
    requires c.GcPrune? && c.p < |c.start.index| && RefsView(s, c)
    requires s'.refs == if c.start.index[c.p].id in c.keep then s.refs else DropRefs(s.refs, c.start.index[c.p].id)
    ensures RefsView(s', GcPrune(c.keepLast, c.start, c.keep, c.p + 1, false))
  {
    var (id, index) := (c.start.index[c.p].id, c.start.index);
    NextPruned(index, c.keep, c.p);
    RemoveOne(c.start.manifests, c.start.refs, GoneSoFar(c), id);
    hide Kept;
    hide Pruned;
    hide WithoutRefsOf;
    hide Abandoned;
    hide DropRefs;
    hide WithoutManifests;
    hide RemoveManifest;
    if id !in c.keep {
      assert GoneSoFar(c) + {id} == Abandoned(c.start) + Pruned(index[..c.p + 1], c.keep);
    }
  }

  lemma SavedRefs(s: Store, c: Proc, s': Store)
    requires c.GcPrune? && c.p == |c.start.index| && RefsView(s, c) && s'.refs == s.refs
    ensures RefsView(s', GcMark(c.keepLast, c.start, c.keep))
  {
    assert c.start.index[..c.p] == c.start.index;
  }

  lemma RefsKept(w: World, step: Step)
    requires Inv(w) && RefsInv(w) && Enabled(w, step)
    ensures RefsInv(Apply(w, step))
  {
    if LeavesRefs(step) {
      OtherRefs(w, step);
      hide Inv;
      hide Apply;
      hide Enabled;
      hide LeavesRefs;
      hide InPass;
      hide SameWork;
      forall p | p in Apply(w, step).procs && InPass(Apply(w, step).procs[p])
        ensures p in w.procs && InPass(w.procs[p]) && SameWork(w.procs[p], Apply(w, step).procs[p])
      {
        OtherWork(w, step, p);
      }
      OthersRefs(w, Apply(w, step));
    } else {
      MoverRefs(w, step);
    }
  }

  lemma OthersRefs(w: World, w': World)
    requires RefsInv(w) && w'.store.refs == w.store.refs
    requires forall p :: p in w'.procs && InPass(w'.procs[p]) ==> p in w.procs && InPass(w.procs[p]) && SameWork(w.procs[p], w'.procs[p])
    ensures RefsInv(w')
  {
    hide RefsView;
    hide InPass;
    hide SameWork;
    forall p | p in w'.procs ensures RefsView(w'.store, w'.procs[p]) {
      if InPass(w'.procs[p]) {
        SameWorkSameRefs(w.store, w'.store, w.procs[p], w'.procs[p]);
      } else {
        NotInPass(w'.store, w'.procs[p]);
      }
    }
  }

  lemma NotInPass(s: Store, c: Proc)
    requires !InPass(c)
    ensures RefsView(s, c)
  {
  }

  /** A step of a process that has the backend open: no other process is in a pass. */
  lemma MoverRefs(w: World, step: Step)
    requires Inv(w) && RefsInv(w) && Enabled(w, step) && !LeavesRefs(step)
    ensures RefsInv(Apply(w, step))
  {
    var (p, w') := (step.p, Apply(w, step));
    var c := w.procs[p];
    if step.LoadIndex? && !c.GcLocked? {
      LoadsOther(w, p, step.todo);
      hide Inv;
      hide Apply;
      hide Enabled;
      OthersRefs(w, w');
    } else {
      OnePass(w, p);
      MoverView(w, step);
      MoverOnly(w, step);
      hide Inv;
      hide Apply;
      hide Enabled;
      hide RefsView;
      forall q | q in w'.procs ensures RefsView(w'.store, w'.procs[q]) {
        if q != p {
          NotInPass(w'.store, w'.procs[q]);
        }
      }
    }
  }

  lemma LoadsOther(w: World, p: Pid, todo: seq<Id>)
    requires Enabled(w, LoadIndex(p, todo)) && !w.procs[p].GcLocked?
    ensures Apply(w, LoadIndex(p, todo)).store == w.store
    ensures var w' := Apply(w, LoadIndex(p, todo)); forall q :: q in w'.procs && InPass(w'.procs[q]) ==> q in w.procs && w'.procs[q] == w.procs[q]
  {
  }

  lemma MoverOnly(w: World, step: Step)
    requires Enabled(w, step) && !LeavesRefs(step) && step.p in w.procs
    ensures var w' := Apply(w, step); step.p in w'.procs && w'.procs == w.procs[step.p := w'.procs[step.p]]
  {
    hide FindSpec;
  }

  lemma MoverView(w: World, step: Step)
    requires Inv(w) && RefsInv(w) && Enabled(w, step) && !LeavesRefs(step) && (step.LoadIndex? ==> w.procs[step.p].GcLocked?)
    ensures step.p in Apply(w, step).procs && RefsView(Apply(w, step).store, Apply(w, step).procs[step.p])
  {
    var (p, w') := (step.p, Apply(w, step));
    var c := w.procs[p];
    assert BoltView(w, c) && RefsView(w.store, c);
    hide Inv;
    hide RefsInv;
    hide RefsView;
    hide FindSpec;
    hide HoldsBolt;
    hide HoldsLock;
    hide IndexIds;
    hide KeepSet;
    hide Kept;
    hide DropRefs;
    hide HashesOf;
    hide IsKeepChoice;
    hide SameFor;
    hide PlanOk;
    match step {
      case LoadIndex(_, todo) => LoadedRefs(w, p, todo);
      case WriteChunk(_, _) => NotInPass(w'.store, w'.procs[p]);
      case DropAbandonedRefs(_) => RecoveredRefs(w.store, c);
      case Decide(_, sorted) => DecidedRefs(w.store, c, KeepSet(sorted, c.keepLast));
      case SkipKept(_) => PrunedRefs(w.store, c, w'.store);
      case PruneRefs(_) => PrunedRefs(w.store, c, w'.store);
      case SaveKept(_) => SavedRefs(w.store, c, w'.store);
    }
  }

  lemma {:induction false} RefsOverRun(w: World, steps: seq<Step>)
    requires Inv(w) && RefsInv(w) && IsRun(w, steps)
    ensures RefsInv(Final(w, steps))
    decreases |steps|
  {
    hide Inv;
    hide RefsInv;
    if steps != [] {
      RefsKept(w, steps[0]);
      StepKeeps(w, steps[0]);
      RefsOverRun(Apply(w, steps[0]), steps[1..]);
    }
  }

  /** Once a pass has written the pruned index, the doc refs are those it began with, less the ones of snapshots it dropped
      and of abandoned manifests. Doc refs that had lost their manifest before the pass began stay. */
  lemma PassDropsRefs(steps: seq<Step>, p: Pid)
    requires IsRun(EMPTY_WORLD, steps) && p in After(steps).procs && (After(steps).procs[p].GcMark? || After(steps).procs[p].GcSweep?)
    ensures var (w, c) := (After(steps), After(steps).procs[p]); forall id, coll :: (id, coll) in w.store.refs <==>
      (id, coll) in c.start.refs && (if id in IndexIds(c.start.index) then id in c.keep else id !in c.start.manifests)
    ensures var (w, c) := (After(steps), After(steps).procs[p]); forall k :: k in w.store.refs ==> k in c.start.refs && w.store.refs[k] == c.start.refs[k]
  {
    InvEmpty();
    hide Inv;
    RefsOverRun(EMPTY_WORLD, steps);
    var (w, c) := (After(steps), After(steps).procs[p]);
    assert RefsView(w.store, c);
    hide IndexIds;
    forall id, coll ensures (id, coll) in w.store.refs <==>
      (id, coll) in c.start.refs && (if id in IndexIds(c.start.index) then id in c.keep else id !in c.start.manifests)
    {
      assert id in GoneSoFar(c) <==> if id in IndexIds(c.start.index) then id !in c.keep else id in c.start.manifests;
    }
  }
}
