/** Create, Tag and GC as separate processes over one bolt-backed scope, one durable effect per step. Any process may
    crash or give up between any two steps. */
module Protocol {
  import opened ByteStrings
  import opened DocRefs
  import opened Options
  import opened Permutations
  import opened Scope

  type Pid = nat

  /** What a Create is going to record: the collections in scanning order, and each one's sorted doc refs. */
  datatype Plan = Plan(id: Id, createdAt: int, colls: seq<Coll>, content: map<Coll, seq<DocRef>>)

  predicate PlanOk(plan: Plan)
  {
    && (forall i, j :: 0 <= i < j < |plan.colls| ==> plan.colls[i] != plan.colls[j])
    && plan.content.Keys == set c | c in plan.colls
  }

  /** Where a process stands. `start` in the GC states is history: the store as GC found it. */
  datatype Proc =
    | Scanning(plan: Plan, k: nat, stored: set<Hash>, written: nat)
    | Saved(plan: Plan)
    | PubLocked(plan: Plan)
    | PubLoaded(plan: Plan, idx: seq<Summary>)
    | TagWaiting(query: Bytes, tag: Bytes)
    | TagLocked(query: Bytes, tag: Bytes)
    | TagLoaded(query: Bytes, tag: Bytes, idx: seq<Summary>)
    | TagWritten(at: nat, tag: Bytes, idx: seq<Summary>)
    | GcWaiting(keepLast: int)
    | GcLocked(keepLast: int)
    | GcRecover(keepLast: int, start: Store, todo: seq<Id>, half: bool)
    | GcPrune(keepLast: int, start: Store, keep: set<Id>, p: nat, half: bool)
    | GcMark(keepLast: int, start: Store, keep: set<Id>)
    | GcSweep(keepLast: int, start: Store, keep: set<Id>, garbage: set<Hash>)
    | Leaving(bolt: bool, lock: bool)

  predicate HoldsBolt(c: Proc)
  {
    c.Scanning? || c.Saved? || c.PubLocked? || c.PubLoaded? || c.GcWaiting? || c.GcLocked? || c.GcRecover? || c.GcPrune? ||
    c.GcMark? || c.GcSweep? || (c.Leaving? && c.bolt)
  }

  predicate HoldsLock(c: Proc)
  {
    MayPublish(c) || c.GcMark? || c.GcSweep? || (c.Leaving? && c.lock)
  }

  /** Inside the critical section, index not yet written. */
  predicate MayPublish(c: Proc)
  {
    c.PubLocked? || c.PubLoaded? || c.TagLocked? || c.TagLoaded? || c.TagWritten? || c.GcLocked? || c.GcRecover? || c.GcPrune?
  }

  /** The three ways a process changes the index. */
  datatype Update = Publish(s: Summary) | AddTag(id: Id, tag: Bytes) | Prune(keep: set<Id>)

  datatype Entry = Entry(ticket: nat, update: Update)

  function WithTag(index: seq<Summary>, at: nat, tag: Bytes): seq<Summary>
    requires at < |index|
  {
    index[at := index[at].(tags := index[at].tags + [tag])]
  }

  function TagById(index: seq<Summary>, id: Id, tag: Bytes): seq<Summary>
  {
    seq(|index|, i requires 0 <= i < |index| => if index[i].id == id then index[i].(tags := index[i].tags + [tag]) else index[i])
  }

  function ApplyUpdate(index: seq<Summary>, u: Update): seq<Summary>
  {
    match u
    case Publish(s) => index + [s]
    case AddTag(id, tag) => TagById(index, id, tag)
    case Prune(keep) => Kept(index, keep)
  }

  /** The index updates applied one at a time to an empty index. */
  function Replay(log: seq<Entry>): seq<Summary>
  {
    if log == [] then [] else ApplyUpdate(Replay(log[..|log| - 1]), log[|log| - 1].update)
  }

  /** `bolt` and `lock` are the two locks; a lock file outlives its holder, bbolt's file lock does not. `content`
      (what each Create set out to record), `damaged` (indexed snapshots whose manifest a pruning pass removed),
      `tickets` (lock acquisitions so far) and `log` (index writes, with the ticket each was made under) are history. */
  datatype World = World(store: Store, bolt: Option<Pid>, lock: Option<Pid>, procs: map<Pid, Proc>, started: set<Pid>,
                         content: map<Id, map<Coll, seq<DocRef>>>, damaged: set<Id>, tickets: nat, log: seq<Entry>)

  const EMPTY_WORLD: World := World(Store([], map[], map[], {}), None, None, map[], {}, map[], {}, 0, [])

  datatype Step =
    | StartCreate(p: Pid, plan: Plan)
    | PutObjects(p: Pid, batch: set<Hash>)
    | WriteChunk(p: Pid, n: nat)
    | NextCollection(p: Pid)
    | SaveManifest(p: Pid)
    | StartTag(p: Pid, query: Bytes, tag: Bytes)
    | StartGc(p: Pid, keepLast: int)
    | AcquireLock(p: Pid)
    | LoadIndex(p: Pid, todo: seq<Id>)
    | PublishIndex(p: Pid)
    | TagManifest(p: Pid)
    | SaveTag(p: Pid)
    | RemoveAbandoned(p: Pid)
    | DropAbandonedRefs(p: Pid)
    | Decide(p: Pid, sorted: seq<Summary>)
    | SkipKept(p: Pid)
    | PruneManifest(p: Pid)
    | PruneRefs(p: Pid)
    | SaveKept(p: Pid)
    | Mark(p: Pid)
    | SweepOne(p: Pid, h: Hash)
    | Return(p: Pid)
    | Unlock(p: Pid)
    | Close(p: Pid)
    | Crash(p: Pid)
    | ReclaimLock

  function CountsOf(content: map<Coll, seq<DocRef>>): map<Coll, nat>
  {
    map c | c in content :: |content[c]|
  }

  /** The list Create is working on. */
  function Current(c: Proc): seq<DocRef>
    requires c.Scanning?
  {
    if c.k < |c.plan.colls| && c.plan.colls[c.k] in c.plan.content then c.plan.content[c.plan.colls[c.k]] else []
  }

  predicate IsAt(w: World, p: Pid)
  {
    p in w.procs
  }

  ghost predicate Enabled(w: World, step: Step)
  {
    match step
    case StartCreate(p, plan) => p !in w.started && w.bolt.None? && PlanOk(plan) && plan.id !in w.content
    case PutObjects(p, batch) => IsAt(w, p) && w.procs[p].Scanning? && batch <= HashesOf(Current(w.procs[p]))
    case WriteChunk(p, n) => IsAt(w, p) && w.procs[p].Scanning? && 0 < n && w.procs[p].stored == HashesOf(Current(w.procs[p])) &&
                             w.procs[p].written + n <= |Current(w.procs[p])| && w.procs[p].k < |w.procs[p].plan.colls|
    case NextCollection(p) => IsAt(w, p) && w.procs[p].Scanning? && w.procs[p].k < |w.procs[p].plan.colls| &&
                              w.procs[p].stored == HashesOf(Current(w.procs[p])) && w.procs[p].written == |Current(w.procs[p])|
    case SaveManifest(p) => IsAt(w, p) && w.procs[p].Scanning? && w.procs[p].k == |w.procs[p].plan.colls|
    case StartTag(p, _, _) => p !in w.started
    case StartGc(p, _) => p !in w.started && w.bolt.None?
    case AcquireLock(p) => IsAt(w, p) && w.lock.None? && (w.procs[p].Saved? || w.procs[p].TagWaiting? || w.procs[p].GcWaiting?)
    case LoadIndex(p, todo) => IsAt(w, p) && (w.procs[p].PubLocked? || w.procs[p].TagLocked? ||
                               (w.procs[p].GcLocked? && Distinct(todo) &&
                                 forall id :: id in todo <==> id in w.store.manifests.Keys - IndexIds(w.store.index)))
    case PublishIndex(p) => IsAt(w, p) && w.procs[p].PubLoaded?
    case TagManifest(p) => IsAt(w, p) && w.procs[p].TagLoaded? &&
                           var at := FindSpec(w.procs[p].idx, w.procs[p].query);
                           at >= 0 && w.procs[p].tag !in w.procs[p].idx[at].tags && w.procs[p].idx[at].id in w.store.manifests
    case SaveTag(p) => IsAt(w, p) && w.procs[p].TagWritten?
    case RemoveAbandoned(p) => IsAt(w, p) && w.procs[p].GcRecover? && !w.procs[p].half && w.procs[p].todo != []
    case DropAbandonedRefs(p) => IsAt(w, p) && w.procs[p].GcRecover? && w.procs[p].half
    case Decide(p, sorted) => IsAt(w, p) && w.procs[p].GcRecover? && w.procs[p].todo == [] && Arranges(w.procs[p].start.index, sorted)
    case SkipKept(p) => IsAt(w, p) && w.procs[p].GcPrune? && !w.procs[p].half && w.procs[p].p < |w.procs[p].start.index| &&
                        w.procs[p].start.index[w.procs[p].p].id in w.procs[p].keep
    case PruneManifest(p) => IsAt(w, p) && w.procs[p].GcPrune? && !w.procs[p].half && w.procs[p].p < |w.procs[p].start.index| &&
                             w.procs[p].start.index[w.procs[p].p].id !in w.procs[p].keep
    case PruneRefs(p) => IsAt(w, p) && w.procs[p].GcPrune? && w.procs[p].half
    case SaveKept(p) => IsAt(w, p) && w.procs[p].GcPrune? && w.procs[p].p == |w.procs[p].start.index|
    case Mark(p) => IsAt(w, p) && w.procs[p].GcMark? && IndexIds(w.store.index) <= w.store.manifests.Keys
    case SweepOne(p, h) => IsAt(w, p) && w.procs[p].GcSweep? && h in w.procs[p].garbage
    case Return(p) => IsAt(w, p) && !w.procs[p].Leaving?
    case Unlock(p) => IsAt(w, p) && w.procs[p].Leaving? && w.procs[p].lock
    case Close(p) => IsAt(w, p) && w.procs[p].Leaving? && !w.procs[p].lock
    case Crash(p) => IsAt(w, p)
    case ReclaimLock => w.lock.Some? && w.lock.value !in w.procs
  }

  /** The process moves on, and nothing else. */
  function Move(w: World, p: Pid, c: Proc): World
  {
    w.(procs := w.procs[p := c])
  }

  /** The process is gone; the operating system drops its bbolt file lock. */
  function Gone(w: World, p: Pid): World
  {
    w.(procs := w.procs - {p}, bolt := if w.bolt == Some(p) then None else w.bolt)
  }

  function Begin(w: World, p: Pid, c: Proc): World
  {
    w.(procs := w.procs[p := c], started := w.started + {p}, bolt := if HoldsBolt(c) then Some(p) else w.bolt)
  }

  function WriteIndex(w: World, index: seq<Summary>, u: Update): World
  {
    w.(store := w.store.(index := index), log := w.log + [Entry(w.tickets, u)])
  }

  function PutRefs(w: World, id: Id, coll: Coll, list: seq<DocRef>): World
  {
    w.(store := w.store.(refs := w.store.refs[(id, coll) := list]))
  }

  function DeleteManifest(w: World, id: Id): World
  {
    w.(store := w.store.(manifests := w.store.manifests - {id}))
  }

  function RemoveRefs(w: World, id: Id): World
  {
    w.(store := w.store.(refs := DropRefs(w.store.refs, id)))
  }

  ghost function Apply(w: World, step: Step): World
    requires Enabled(w, step)
  {
    match step
    case StartCreate(p, plan) => Begin(w, p, Scanning(plan, 0, {}, 0)).(content := w.content[plan.id := plan.content])
    case PutObjects(p, batch) =>
      var c := w.procs[p];
      Move(w, p, c.(stored := c.stored + batch)).(store := w.store.(objects := w.store.objects + batch))
    case WriteChunk(p, n) =>
      var c := w.procs[p];
      PutRefs(Move(w, p, c.(written := c.written + n)), c.plan.id, c.plan.colls[c.k], Current(c)[..c.written + n])
    case NextCollection(p) => Move(w, p, w.procs[p].(k := w.procs[p].k + 1, stored := {}, written := 0))
    case SaveManifest(p) =>
      var plan := w.procs[p].plan;
      Move(w, p, Saved(plan)).(store := w.store.(manifests := w.store.manifests[plan.id := Manifest(CountsOf(plan.content), [])]))
    case StartTag(p, query, tag) => Begin(w, p, TagWaiting(query, tag))
    case StartGc(p, keepLast) => Begin(w, p, GcWaiting(keepLast))
    case AcquireLock(p) =>
      Move(w, p, match w.procs[p]
                 case Saved(plan) => PubLocked(plan)
                 case TagWaiting(query, tag) => TagLocked(query, tag)
                 case GcWaiting(keepLast) => GcLocked(keepLast)).(lock := Some(p), tickets := w.tickets + 1)
    case LoadIndex(p, todo) =>
      Move(w, p, match w.procs[p]
                 case PubLocked(plan) => PubLoaded(plan, w.store.index)
                 case TagLocked(query, tag) => TagLoaded(query, tag, w.store.index)
                 case GcLocked(keepLast) => GcRecover(keepLast, w.store, todo, false))
    case PublishIndex(p) =>
      var s := Summary(w.procs[p].plan.id, [], w.procs[p].plan.createdAt);
      WriteIndex(Move(w, p, Leaving(true, true)), w.procs[p].idx + [s], Publish(s))
    case TagManifest(p) =>
      var c := w.procs[p];
      var at := FindSpec(c.idx, c.query);
      var id := c.idx[at].id;
      var m := w.store.manifests[id].(tags := c.idx[at].tags + [c.tag]);
      Move(w, p, TagWritten(at, c.tag, c.idx)).(store := w.store.(manifests := w.store.manifests[id := m]))
    case SaveTag(p) =>
      var c := w.procs[p];
      if c.at < |c.idx| then WriteIndex(Move(w, p, Leaving(false, true)), WithTag(c.idx, c.at, c.tag), AddTag(c.idx[c.at].id, c.tag)) else w
    case RemoveAbandoned(p) =>
      var c := w.procs[p];
      DeleteManifest(Move(w, p, GcRecover(c.keepLast, c.start, c.todo, true)), c.todo[0])
    case DropAbandonedRefs(p) =>
      var c := w.procs[p];
      if c.todo != [] then RemoveRefs(Move(w, p, GcRecover(c.keepLast, c.start, c.todo[1..], false)), c.todo[0]) else w
    case Decide(p, sorted) =>
      var c := w.procs[p];
      Move(w, p, GcPrune(c.keepLast, c.start, KeepSet(sorted, c.keepLast), 0, false))
    case SkipKept(p) => Move(w, p, w.procs[p].(p := w.procs[p].p + 1))
    case PruneManifest(p) =>
      var c := w.procs[p];
      var id := c.start.index[c.p].id;
      DeleteManifest(Move(w, p, GcPrune(c.keepLast, c.start, c.keep, c.p, true)), id).(damaged := w.damaged + {id})
    case PruneRefs(p) =>
      var c := w.procs[p];
      if c.p < |c.start.index| then RemoveRefs(Move(w, p, GcPrune(c.keepLast, c.start, c.keep, c.p + 1, false)), c.start.index[c.p].id) else w
    case SaveKept(p) =>
      var c := w.procs[p];
      WriteIndex(Move(w, p, GcMark(c.keepLast, c.start, c.keep)), Kept(c.start.index, c.keep), Prune(c.keep))
    case Mark(p) =>
      var c := w.procs[p];
      Move(w, p, GcSweep(c.keepLast, c.start, c.keep, w.store.objects - Referenced(w.store, IndexIds(w.store.index))))
    case SweepOne(p, h) =>
      Move(w, p, w.procs[p].(garbage := w.procs[p].garbage - {h})).(store := w.store.(objects := w.store.objects - {h}))
    case Return(p) => Move(w, p, Leaving(HoldsBolt(w.procs[p]), HoldsLock(w.procs[p])))
    case Unlock(p) => Move(w, p, Leaving(w.procs[p].bolt, false)).(lock := None)
    case Close(p) => Gone(w, p)
    case Crash(p) => Gone(w, p)
    case ReclaimLock => w.(lock := None)
  }

  /** A run: every step enabled where it is taken. */
  ghost predicate IsRun(w: World, steps: seq<Step>)
    decreases |steps|
  {
    steps == [] || (Enabled(w, steps[0]) && IsRun(Apply(w, steps[0]), steps[1..]))
  }

  ghost function Final(w: World, steps: seq<Step>): World
    requires IsRun(w, steps)
    decreases |steps|
  {
    if steps == [] then w else Final(Apply(w, steps[0]), steps[1..])
  }
}
