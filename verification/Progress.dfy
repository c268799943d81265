/** Nothing in the protocol stands in anybody's way: a process that has the scope lock, or finds it free, can finish by
    steps of its own. */
module Progress {
  import opened ByteStrings
  import opened DocRefs
  import opened Options
  import opened Permutations
  import opened Scope
  import opened Protocol
  import opened Lifecycle
  import opened Durability

  /** A Tag with nothing to write: no snapshot fits, the tag is there, or the manifest is missing. */
  ghost predicate NothingToTag(w: World, c: Proc)
    requires c.TagLoaded?
  {
    var at := FindSpec(c.idx, c.query);
    at < 0 || c.tag in c.idx[at].tags || c.idx[at].id !in w.store.manifests
  }

  /** The process has done its work: it leaves, its garbage is swept, or it ends in one of the failures its call reports. */
  ghost predicate HasFinished(w: World, c: Proc)
  {
    || c.Leaving?
    || (c.GcSweep? && c.garbage == {})
    || (c.GcMark? && !(IndexIds(w.store.index) <= w.store.manifests.Keys))
    || (c.TagLoaded? && NothingToTag(w, c))
  }

  /** How much is left to do: stages, then items, then parts of the item at hand. */
  function Stage(c: Proc): nat
  {
    match c
    case Scanning(_, _, _, _) => 9
    case Saved(_) => 8
    case PubLocked(_) => 7
    case PubLoaded(_, _) => 6
    case TagWaiting(_, _) => 8
    case TagLocked(_, _) => 7
    case TagLoaded(_, _, _) => 6
    case TagWritten(_, _, _) => 5
    case GcWaiting(_) => 8
    case GcLocked(_) => 7
    case GcRecover(_, _, _, _) => 6
    case GcPrune(_, _, _, _, _) => 5
    case GcMark(_, _, _) => 4
    case GcSweep(_, _, _, _) => 3
    case Leaving(_, _) => 0
  }

  function Items(c: Proc): int
  {
    match c
    case Scanning(plan, k, _, _) => |plan.colls| - k
    case GcRecover(_, _, todo, _) => |todo|
    case GcPrune(_, start, _, p, _) => |start.index| - p
    case GcSweep(_, _, _, garbage) => |garbage|
    case _ => 0
  }

  function Parts(c: Proc): int
  {
    match c
    case Scanning(_, _, stored, written) => |Current(c)| - written + (if stored == HashesOf(Current(c)) then 0 else 1)
    case GcRecover(_, _, _, half) => if half then 0 else 1
    case GcPrune(_, _, _, _, half) => if half then 0 else 1
    case _ => 0
  }

  /** Of two positions of a process, the one closer to its end. */
  ghost predicate Closer(c': Proc, c: Proc)
  {
    || Stage(c') < Stage(c)
    || (Stage(c') == Stage(c) && 0 <= Items(c') < Items(c))
    || (Stage(c') == Stage(c) && Items(c') == Items(c) && 0 <= Parts(c') < Parts(c))
  }

  /** A step of its own, by which the process goes on with its work. */
  ghost predicate Works(w: World, p: Pid, step: Step)
  {
    && !step.ReclaimLock? && !step.Crash? && !step.Return? && step.p == p && Enabled(w, step)
    && p in w.procs && p in Apply(w, step).procs && Closer(Apply(w, step).procs[p], w.procs[p])
  }

  lemma CreateWorks(w: World, p: Pid) returns (step: Step)
    requires p in w.procs && w.procs[p].Scanning? && ScanView(w, w.procs[p])
    ensures Works(w, p, step)
  {
    var c := w.procs[p];
    var list := Current(c);
    if c.k == |c.plan.colls| {
      step := SaveManifest(p);
    } else if c.stored != HashesOf(list) {
      step := PutObjects(p, HashesOf(list));
      assert Current(Apply(w, step).procs[p]) == list;
    } else if c.written < |list| {
      step := WriteChunk(p, |list| - c.written);
      assert Current(Apply(w, step).procs[p]) == list;
    } else {
      step := NextCollection(p);
    }
  }

  lemma {:induction false} Listed(ids: set<Id>) returns (todo: seq<Id>)
    ensures Distinct(todo) && forall id :: id in todo <==> id in ids
    decreases |ids|
  {
    if ids == {} {
      todo := [];
    } else {
      var id :| id in ids;
      var rest := Listed(ids - {id});
      todo := [id] + rest;
    }
  }

  lemma LockHolderWorks(w: World, p: Pid) returns (step: Step)
    requires p in w.procs && (w.procs[p].PubLocked? || w.procs[p].TagLocked? || w.procs[p].GcLocked?)
    ensures Works(w, p, step)
  {
    var todo := Listed(w.store.manifests.Keys - IndexIds(w.store.index));
    hide FindSpec;
    step := LoadIndex(p, todo);
  }

  lemma WaiterWorks(w: World, p: Pid) returns (step: Step)
    requires p in w.procs && w.lock.None? && (w.procs[p].Saved? || w.procs[p].TagWaiting? || w.procs[p].GcWaiting?)
    ensures Works(w, p, step)
  {
    step := AcquireLock(p);
  }

  lemma WriterWorks(w: World, p: Pid) returns (step: Step)
    requires p in w.procs && LockView(w.store.index, w.procs[p])
    requires w.procs[p].PubLoaded? || w.procs[p].TagWritten? || (w.procs[p].TagLoaded? && !NothingToTag(w, w.procs[p]))
    ensures Works(w, p, step)
  {
    step := if w.procs[p].PubLoaded? then PublishIndex(p) else if w.procs[p].TagLoaded? then TagManifest(p) else SaveTag(p);
    hide FindSpec;
  }

  lemma RecovererWorks(w: World, p: Pid) returns (step: Step)
    requires p in w.procs && w.procs[p].GcRecover? && RecoverView(w.store, w.procs[p])
    ensures Works(w, p, step)
  {
    var c := w.procs[p];
    if c.half {
      step := DropAbandonedRefs(p);
    } else if c.todo != [] {
      step := RemoveAbandoned(p);
    } else {
      var sorted := SomeArrangement(c.start.index);
      step := Decide(p, sorted);
    }
    hide Arranges;
    hide SameFor;
  }

  lemma PrunerWorks(w: World, p: Pid) returns (step: Step)
    requires p in w.procs && w.procs[p].GcPrune? && PruneView(w.store, w.procs[p])
    ensures Works(w, p, step)
  {
    var c := w.procs[p];
    hide IsKeepChoice;
    hide SameFor;
    step := if c.half then PruneRefs(p)
            else if c.p == |c.start.index| then SaveKept(p)
            else if c.start.index[c.p].id in c.keep then SkipKept(p)
            else PruneManifest(p);
  }

  lemma SweeperWorks(w: World, p: Pid) returns (step: Step)
    requires p in w.procs && !HasFinished(w, w.procs[p]) && (w.procs[p].GcMark? || w.procs[p].GcSweep?)
    ensures Works(w, p, step)
  {
    var c := w.procs[p];
    if c.GcMark? {
      step := Mark(p);
    } else {
      var h :| h in c.garbage;
      step := SweepOne(p, h);
      assert c.garbage == (c.garbage - {h}) + {h};
    }
  }

  /** The locks let the process go on: it does not wait for the scope lock, or finds it free. */
  predicate NotBlocked(w: World, p: Pid)
    requires p in w.procs
  {
    w.procs[p].Saved? || w.procs[p].TagWaiting? || w.procs[p].GcWaiting? ==> w.lock.None?
  }

  /** A process that is not blocked has a step of its own until it has finished. */
  lemma CanWork(w: World, p: Pid) returns (step: Step)
    requires Inv(w) && p in w.procs && NotBlocked(w, p) && !HasFinished(w, w.procs[p])
    ensures Works(w, p, step)
  {
    var c := w.procs[p];
    assert BoltView(w, c) && LockView(w.store.index, c);
    hide Inv;
    hide Works;
    hide ScanView;
    hide RecoverView;
    hide PruneView;
    hide SweepView;
    hide LockView;
    hide NothingToTag;
    match c {
      case Scanning(_, _, _, _) => step := CreateWorks(w, p);
      case GcRecover(_, _, _, _) => step := RecovererWorks(w, p);
      case GcPrune(_, _, _, _, _) => step := PrunerWorks(w, p);
      case GcMark(_, _, _) => step := SweeperWorks(w, p);
      case GcSweep(_, _, _, _) => step := SweeperWorks(w, p);
      case PubLocked(_) => step := LockHolderWorks(w, p);
      case TagLocked(_, _) => step := LockHolderWorks(w, p);
      case GcLocked(_) => step := LockHolderWorks(w, p);
      case Saved(_) => step := WaiterWorks(w, p);
      case TagWaiting(_, _) => step := WaiterWorks(w, p);
      case GcWaiting(_) => step := WaiterWorks(w, p);
      case PubLoaded(_, _) => step := WriterWorks(w, p);
      case TagLoaded(_, _, _) => step := WriterWorks(w, p);
      case TagWritten(_, _, _) => step := WriterWorks(w, p);
    }
  }

  // ---- To the end ----

  /** There is nothing to do for this Tag. */
  ghost predicate NothingFor(s: Store, query: Bytes, tag: Bytes)
  {
    var at := FindSpec(s.index, query);
    at < 0 || tag in s.index[at].tags || s.index[at].id !in s.manifests
  }

  ghost function Tagged(s: Store, query: Bytes, tag: Bytes): seq<Summary>
  {
    if NothingFor(s, query, tag) then s.index else WithTag(s.index, FindSpec(s.index, query), tag)
  }

  /** A pass that began with this store is through, or has failed to mark. */
  ghost predicate PassIsOver(keepLast: int, start: Store, w: World, c: Proc)
  {
    (c.GcMark? || c.GcSweep?) && c.keepLast == keepLast && c.start == start && HasFinished(w, c)
  }

  /** The snapshot is listed last, and restorable. */
  ghost predicate PublishedNow(index: seq<Summary>, plan: Plan, s: Store)
  {
    s.index == index + [Summary(plan.id, [], plan.createdAt)] && Restorable(s, plan.id, plan.content)
  }

  /** What a process at c in w was there for, it has done when it is at c' in w'. */
  ghost predicate Delivers(w: World, c: Proc, w': World, c': Proc)
  {
    match c
    case Scanning(plan, _, _, _) => PublishedNow(w.store.index, plan, w'.store)
    case Saved(plan) => PublishedNow(w.store.index, plan, w'.store)
    case PubLocked(plan) => PublishedNow(w.store.index, plan, w'.store)
    case PubLoaded(plan, _) => PublishedNow(w.store.index, plan, w'.store)
    case TagWaiting(query, tag) => w'.store.index == Tagged(w.store, query, tag)
    case TagLocked(query, tag) => w'.store.index == Tagged(w.store, query, tag)
    case TagLoaded(query, tag, _) => w'.store.index == Tagged(w.store, query, tag)
    case TagWritten(at, tag, _) => at < |w.store.index| && w'.store.index == WithTag(w.store.index, at, tag)
    case GcWaiting(keepLast) => PassIsOver(keepLast, w.store, w', c')
    case GcLocked(keepLast) => PassIsOver(keepLast, w.store, w', c')
    case GcRecover(keepLast, start, _, _) => PassIsOver(keepLast, start, w', c')
    case GcPrune(keepLast, start, _, _, _) => PassIsOver(keepLast, start, w', c')
    case GcMark(keepLast, start, _) => PassIsOver(keepLast, start, w', c')
    case GcSweep(keepLast, start, _, _) => PassIsOver(keepLast, start, w', c')
    case Leaving(_, _) => w'.store == w.store
  }

  lemma FinishedDelivers(w: World, p: Pid)
    requires p in w.procs && LockView(w.store.index, w.procs[p]) && HasFinished(w, w.procs[p])
    ensures Delivers(w, w.procs[p], w, w.procs[p])
  {
    hide FindSpec;
  }

  /** From c in w, the process has come to c1 in w1. */
  ghost predicate LeadsTo(w: World, c: Proc, w1: World, c1: Proc)
  {
    match c
    case Scanning(plan, _, _, _) => w1.store.index == w.store.index && ((c1.Scanning? && c1.plan == plan) || c1 == Saved(plan))
    case Saved(plan) => w1.store == w.store && c1 == PubLocked(plan)
    case PubLocked(plan) => w1.store == w.store && c1.PubLoaded? && c1.plan == plan
    case PubLoaded(plan, _) => PublishedNow(w.store.index, plan, w1.store) && c1.Leaving?
    case TagWaiting(query, tag) => w1.store == w.store && c1 == TagLocked(query, tag)
    case TagLocked(query, tag) => w1.store == w.store && c1.TagLoaded? && c1.query == query && c1.tag == tag
    case TagLoaded(query, tag, _) =>
      !NothingFor(w.store, query, tag) && w1.store.index == w.store.index && c1.TagWritten? && c1.at == FindSpec(w.store.index, query) && c1.tag == tag
    case TagWritten(at, tag, _) => at < |w.store.index| && w1.store.index == WithTag(w.store.index, at, tag) && c1.Leaving?
    case GcWaiting(keepLast) => w1.store == w.store && c1 == GcLocked(keepLast)
    case GcLocked(keepLast) => c1.GcRecover? && c1.keepLast == keepLast && c1.start == w.store
    case Leaving(_, _) => w1.store == w.store && c1.Leaving?
    case _ => InPass(c1) && c1.keepLast == c.keepLast && c1.start == c.start
  }

  lemma WorkIs(w: World, p: Pid, step: Step)
    requires p in w.procs && p in w.started && BoltView(w, w.procs[p]) && LockView(w.store.index, w.procs[p]) && Works(w, p, step)
    ensures LeadsTo(w, w.procs[p], Apply(w, step), Apply(w, step).procs[p])
  {
    hide FindSpec;
    hide WithTag;
    hide KeepSet;
    hide Kept;
    hide Referenced;
    hide ScanView;
    hide RecoverView;
    hide PruneView;
    hide KeptView;
    hide SweepView;
  }

  lemma StillDelivers(w: World, c: Proc, w1: World, c1: Proc, w': World, c': Proc)
    requires LeadsTo(w, c, w1, c1) && Delivers(w1, c1, w', c')
    ensures Delivers(w, c, w', c')
  {
    hide FindSpec;
    hide WithTag;
    hide PassIsOver;
    hide NothingFor;
    hide PublishedNow;
  }

  /** Nobody else has the scope lock. */
  predicate LockIsFree(w: World, p: Pid)
    requires p in w.procs
  {
    w.lock.None? || HoldsLock(w.procs[p])
  }

  lemma StaysFree(w: World, p: Pid, step: Step)
    requires p in w.procs && LockIsFree(w, p) && Works(w, p, step)
    ensures p in Apply(w, step).procs && LockIsFree(Apply(w, step), p)
  {
    hide FindSpec;
  }

  predicate OwnStep(p: Pid, step: Step)
  {
    !step.ReclaimLock? && !step.Crash? && !step.Return? && step.p == p
  }

  /** If nobody else has the scope lock, the process finishes by steps of its own, and has done what it was there for. */
  lemma {:induction false} CanFinish(w: World, p: Pid) returns (rest: seq<Step>)
    requires Inv(w) && p in w.procs && LockIsFree(w, p)
    ensures IsRun(w, rest) && forall step :: step in rest ==> OwnStep(p, step)
    ensures var w' := Final(w, rest); p in w'.procs && HasFinished(w', w'.procs[p]) && Delivers(w, w.procs[p], w', w'.procs[p])
    decreases Stage(w.procs[p]), Items(w.procs[p]), Parts(w.procs[p])
  {
    assert BoltView(w, w.procs[p]) && LockView(w.store.index, w.procs[p]);
    if HasFinished(w, w.procs[p]) {
      rest := [];
      FinishedDelivers(w, p);
    } else {
      var step := CanWork(w, p);
      StepKeeps(w, step);
      StaysFree(w, p, step);
      WorkIs(w, p, step);
      hide Inv;
      hide Apply;
      hide Enabled;
      hide HasFinished;
      hide Delivers;
      hide LeadsTo;
      hide LockView;
      hide BoltView;
      hide Stage;
      hide Items;
      hide Parts;
      hide LockIsFree;
      var more := CanFinish(Apply(w, step), p);
      rest := [step] + more;
      assert rest[0] == step && rest[1..] == more;
      StillDelivers(w, w.procs[p], Apply(w, step), Apply(w, step).procs[p], Final(w, rest), Final(w, rest).procs[p]);
    }
  }

  lemma {:induction false} RunsFrom(w: World, step: Step, rest: seq<Step>)
    requires Enabled(w, step) && IsRun(Apply(w, step), rest)
    ensures IsRun(w, [step] + rest) && Final(w, [step] + rest) == Final(Apply(w, step), rest)
  {
    hide Enabled;
    hide Apply;
    assert ([step] + rest)[0] == step && ([step] + rest)[1..] == rest;
  }

  /** Whatever happened before: if both locks are free, a Create that nobody else gets in the way of can publish what it
      was started with. */
  lemma CreateCanPublish(w: World, p: Pid, plan: Plan) returns (rest: seq<Step>)
    requires Inv(w) && w.lock.None? && w.bolt.None? && p !in w.started && PlanOk(plan) && plan.id !in w.content
    ensures IsRun(w, [StartCreate(p, plan)] + rest) && forall step :: step in rest ==> OwnStep(p, step)
    ensures PublishedNow(w.store.index, plan, Final(w, [StartCreate(p, plan)] + rest).store)
  {
    var step := StartCreate(p, plan);
    var w' := Apply(w, step);
    StepKeeps(w, step);
    assert w'.procs[p].Scanning? && w'.procs[p].plan == plan && w'.lock.None? && w'.store == w.store;
    hide Inv;
    hide Apply;
    hide Enabled;
    rest := CanFinish(w', p);
    RunsFrom(w, step, rest);
  }

  /** So can a Tag put its tag on the snapshot that the query names, if it is not there yet. */
  lemma TagCanTag(w: World, p: Pid, query: Bytes, tag: Bytes) returns (rest: seq<Step>)
    requires Inv(w) && w.lock.None? && p !in w.started
    ensures IsRun(w, [StartTag(p, query, tag)] + rest) && forall step :: step in rest ==> OwnStep(p, step)
    ensures Final(w, [StartTag(p, query, tag)] + rest).store.index == Tagged(w.store, query, tag)
  {
    var step := StartTag(p, query, tag);
    var w' := Apply(w, step);
    StepKeeps(w, step);
    assert w'.procs[p] == TagWaiting(query, tag) && w'.lock.None? && w'.store == w.store;
    hide Inv;
    hide Apply;
    hide Enabled;
    rest := CanFinish(w', p);
    RunsFrom(w, step, rest);
  }

  /** And a GC can sweep, if the snapshots it keeps have their manifests. */
  lemma GcCanCollect(w: World, p: Pid, keepLast: int) returns (rest: seq<Step>)
    requires Inv(w) && w.lock.None? && w.bolt.None? && p !in w.started
    ensures IsRun(w, [StartGc(p, keepLast)] + rest) && forall step :: step in rest ==> OwnStep(p, step)
    ensures var w' := Final(w, [StartGc(p, keepLast)] + rest);
      && p in w'.procs && HasChosen(w'.procs[p]) && IsKeepChoice(w.store.index, keepLast, w'.procs[p].keep)
      && (KeptIdsOf(w.store, w'.procs[p].keep) <= w.store.manifests.Keys ==> OutcomeOf(w'.store) == Target(w.store, w'.procs[p].keep))
  {
    var step := StartGc(p, keepLast);
    var w' := Apply(w, step);
    StepKeeps(w, step);
    assert w'.procs[p] == GcWaiting(keepLast) && w'.lock.None? && w'.store == w.store;
    hide Inv;
    hide Apply;
    hide Enabled;
    rest := CanFinish(w', p);
    RunKeeps(w', rest);
    RunsFrom(w, step, rest);
    PassEnds(Final(w', rest), p);
  }

  lemma PassEnds(w: World, p: Pid)
    requires Inv(w) && p in w.procs && (w.procs[p].GcMark? || w.procs[p].GcSweep?) && HasFinished(w, w.procs[p])
    ensures var c := w.procs[p]; IsKeepChoice(c.start.index, c.keepLast, c.keep)
    ensures var c := w.procs[p]; KeptIdsOf(c.start, c.keep) <= c.start.manifests.Keys ==> OutcomeOf(w.store) == Target(c.start, c.keep)
  {
    var c := w.procs[p];
    if c.GcSweep? {
      SweptView(w, p);
    } else {
      assert BoltView(w, c);
      hide Inv;
      hide IsKeepChoice;
      LiveNow(w.store, c.start, c.keepLast, c.keep);
    }
  }
}
