/** Where everything in the index comes from: every update the protocol logs is one that some started Create, Tag or GC
    asked for, so every line of the index carries its Create's time and just the tags that were put on it. */
module Requests {
  import opened ByteStrings
  import opened DocRefs
  import opened Permutations
  import opened Scope
  import opened Protocol
  import opened Lifecycle
  import opened Durability
  import Publishing

  /** What the process is about was asked for in one of these steps. */
  ghost predicate AskedFor(done: seq<Step>, p: Pid, c: Proc)
  {
    match c
    case Scanning(plan, _, _, _) => StartCreate(p, plan) in done
    case Saved(plan) => StartCreate(p, plan) in done
    case PubLocked(plan) => StartCreate(p, plan) in done
    case PubLoaded(plan, _) => StartCreate(p, plan) in done
    case TagWaiting(query, tag) => StartTag(p, query, tag) in done
    case TagLocked(query, tag) => StartTag(p, query, tag) in done
    case TagLoaded(query, tag, _) => StartTag(p, query, tag) in done
    case TagWritten(at, tag, idx) => exists query :: StartTag(p, query, tag) in done && NewTag(idx, query, tag, at)
    case GcWaiting(keepLast) => StartGc(p, keepLast) in done
    case GcLocked(keepLast) => StartGc(p, keepLast) in done
    case GcRecover(keepLast, _, _, _) => StartGc(p, keepLast) in done
    case GcPrune(keepLast, _, _, _, _) => StartGc(p, keepLast) in done
    case GcMark(keepLast, _, _) => StartGc(p, keepLast) in done
    case GcSweep(keepLast, _, _, _) => StartGc(p, keepLast) in done
    case Leaving(_, _) => true
  }

  /** The query names the line at this place, and the line does not have the tag. */
  ghost predicate NewTag(index: seq<Summary>, query: Bytes, tag: Bytes, at: int)
  {
    Answers(index, query, at) && tag !in index[at].tags
  }

  /** The update is what one of these steps asked to have done to this index. */
  ghost predicate Fulfils(done: seq<Step>, index: seq<Summary>, u: Update)
  {
    match u
    case Publish(s) => s.id !in IndexIds(index) && exists p, plan :: StartCreate(p, plan) in done && s == Summary(plan.id, [], plan.createdAt)
    case AddTag(id, tag) => exists p, query, at :: StartTag(p, query, tag) in done && NewTag(index, query, tag, at) && index[at].id == id
    case Prune(keep) => exists p, keepLast :: StartGc(p, keepLast) in done && IsKeepChoice(index, keepLast, keep)
  }

  ghost predicate AllFulfil(done: seq<Step>, log: seq<Entry>)
  {
    forall i :: 0 <= i < |log| ==> Fulfils(done, Replay(log[..i]), log[i].update)
  }

  /** Every Create so far has an ID of its own, under which its content is on record. */
  ghost predicate PlansInv(done: seq<Step>, w: World)
  {
    && (forall i :: 0 <= i < |done| && done[i].StartCreate? ==>
          done[i].plan.id in w.content && w.content[done[i].plan.id] == done[i].plan.content)
    && (forall i, j :: 0 <= i < j < |done| && done[i].StartCreate? && done[j].StartCreate? ==> done[i].plan.id != done[j].plan.id)
  }

  ghost predicate RequestsInv(done: seq<Step>, w: World)
  {
    (forall p :: p in w.procs ==> AskedFor(done, p, w.procs[p])) && AllFulfil(done, w.log) && PlansInv(done, w)
  }

  // ---- One more step ----

  lemma StillAsked(done: seq<Step>, step: Step, p: Pid, c: Proc)
    requires AskedFor(done, p, c)
    ensures AskedFor(done + [step], p, c)
  {
    hide NewTag;
    assert forall s :: s in done ==> s in done + [step];
  }

  lemma StillFulfils(done: seq<Step>, step: Step, index: seq<Summary>, u: Update)
    requires Fulfils(done, index, u)
    ensures Fulfils(done + [step], index, u)
  {
    hide NewTag;
    hide IsKeepChoice;
    hide IndexIds;
    assert forall s :: s in done ==> s in done + [step];
  }

  lemma OneMoreEntry(done: seq<Step>, step: Step, log: seq<Entry>, e: Entry)
    requires AllFulfil(done, log) && Fulfils(done + [step], Replay(log), e.update)
    ensures AllFulfil(done + [step], log + [e])
  {
    hide Fulfils;
    hide Replay;
    forall i | 0 <= i < |log + [e]| ensures Fulfils(done + [step], Replay((log + [e])[..i]), (log + [e])[i].update) {
      assert (log + [e])[..i] == log[..i];
      if i < |log| {
        StillFulfils(done, step, Replay(log[..i]), log[i].update);
      } else {
        assert log[..i] == log;
      }
    }
  }

  lemma SameEntries(done: seq<Step>, step: Step, log: seq<Entry>)
    requires AllFulfil(done, log)
    ensures AllFulfil(done + [step], log)
  {
    hide Fulfils;
    hide Replay;
    forall i | 0 <= i < |log| ensures Fulfils(done + [step], Replay(log[..i]), log[i].update) {
      StillFulfils(done, step, Replay(log[..i]), log[i].update);
    }
  }

  lemma PlansKept(done: seq<Step>, w: World, step: Step)
    requires PlansInv(done, w) && Enabled(w, step)
    ensures PlansInv(done + [step], Apply(w, step))
  {
    hide FindSpec;
    var w' := Apply(w, step);
    assert forall id :: id in w.content && !(step.StartCreate? && step.plan.id == id) ==> id in w'.content && w'.content[id] == w.content[id];
    if step.StartCreate? {
      assert w'.content == w.content[step.plan.id := step.plan.content];
    }
  }

  /** The process that takes the step still does what was asked for. */
  lemma MoverAsked(done: seq<Step>, w: World, step: Step, p: Pid)
    requires Enabled(w, step) && p in Apply(w, step).procs
    requires p in w.procs ==> AskedFor(done, p, w.procs[p])
    ensures AskedFor(done + [step], p, Apply(w, step).procs[p])
  {
    var w' := Apply(w, step);
    if p in w.procs && w'.procs[p] == w.procs[p] {
      StillAsked(done, step, p, w.procs[p]);
    } else if step.TagManifest? {
      TaggerAsked(done, w, p);
    } else {
      hide FindSpec;
      hide NewTag;
      hide HoldsBolt;
      hide HoldsLock;
      hide IndexIds;
      hide KeepSet;
      hide Kept;
      hide Referenced;
      hide DropRefs;
      hide CountsOf;
      assert forall s :: s in done ==> s in done + [step];
      assert step in done + [step];
    }
  }

  lemma TaggerAsked(done: seq<Step>, w: World, p: Pid)
    requires Enabled(w, TagManifest(p)) && AskedFor(done, p, w.procs[p])
    ensures AskedFor(done + [TagManifest(p)], p, Apply(w, TagManifest(p)).procs[p])
  {
    var c := w.procs[p];
    Publishing.FindAnswers(c.idx, c.query);
    assert NewTag(c.idx, c.query, c.tag, FindSpec(c.idx, c.query));
    assert StartTag(p, c.query, c.tag) in done + [TagManifest(p)];
  }

  /** What a step that writes the index logs. */
  ghost function Logged(w: World, step: Step): Update
    requires Enabled(w, step) && Apply(w, step).log != []
  {
    Apply(w, step).log[|Apply(w, step).log| - 1].update
  }

  predicate WritesIndex(step: Step)
  {
    step.PublishIndex? || step.SaveTag? || step.SaveKept?
  }

  lemma OneEntry(w: World, step: Step)
    requires Inv(w) && Enabled(w, step)
    ensures WritesIndex(step) ==> Apply(w, step).log == w.log + [Entry(w.tickets, Logged(w, step))]
    ensures !WritesIndex(step) ==> Apply(w, step).log == w.log
  {
    hide FindSpec;
    hide Kept;
    hide BoltView;
    hide LogInv;
    hide PublishedInv;
    hide IndexInv;
    hide LocksInv;
  }

  lemma PublishFulfils(done: seq<Step>, w: World, p: Pid)
    requires Inv(w) && Enabled(w, PublishIndex(p)) && AskedFor(done, p, w.procs[p])
    ensures Fulfils(done, w.store.index, Logged(w, PublishIndex(p)))
  {
    assert BoltView(w, w.procs[p]);
    hide Inv;
    hide Restorable;
    hide IndexIds;
  }

  lemma TagFulfils(done: seq<Step>, w: World, p: Pid)
    requires Inv(w) && Enabled(w, SaveTag(p)) && AskedFor(done, p, w.procs[p])
    ensures Fulfils(done, w.store.index, Logged(w, SaveTag(p)))
  {
    var c := w.procs[p];
    assert LockView(w.store.index, c);
    hide Inv;
    hide Answers;
    hide WithTag;
  }

  lemma PruneFulfils(done: seq<Step>, w: World, p: Pid)
    requires Inv(w) && Enabled(w, SaveKept(p)) && AskedFor(done, p, w.procs[p])
    ensures Fulfils(done, w.store.index, Logged(w, SaveKept(p)))
  {
    assert BoltView(w, w.procs[p]);
    hide Inv;
    hide IsKeepChoice;
    hide Kept;
  }

  lemma LogFulfils(done: seq<Step>, w: World, step: Step)
    requires Inv(w) && Enabled(w, step) && WritesIndex(step) && AskedFor(done, step.p, w.procs[step.p])
    ensures Fulfils(done + [step], Replay(w.log), Logged(w, step))
  {
    assert w.store.index == Replay(w.log);
    hide *;
    match step {
      case PublishIndex(p) => PublishFulfils(done, w, p);
      case SaveTag(p) => TagFulfils(done, w, p);
      case SaveKept(p) => PruneFulfils(done, w, p);
    }
    StillFulfils(done, step, w.store.index, Logged(w, step));
  }

  lemma RequestsKept(done: seq<Step>, w: World, step: Step)
    requires Inv(w) && RequestsInv(done, w) && Enabled(w, step)
    ensures RequestsInv(done + [step], Apply(w, step))
  {
    PlansKept(done, w, step);
    OneEntry(w, step);
    OthersStay(w, step);
    if WritesIndex(step) {
      LogFulfils(done, w, step);
      OneMoreEntry(done, step, w.log, Entry(w.tickets, Logged(w, step)));
    } else {
      SameEntries(done, step, w.log);
    }
    forall p | p in Apply(w, step).procs ensures AskedFor(done + [step], p, Apply(w, step).procs[p]) {
      hide *;
      if p in w.procs && Apply(w, step).procs[p] == w.procs[p] {
        StillAsked(done, step, p, w.procs[p]);
      } else {
        MoverAsked(done, w, step, p);
      }
    }
    hide *;
  }

  lemma {:induction false} RequestsOverRun(done: seq<Step>, w: World, steps: seq<Step>)
    requires Inv(w) && RequestsInv(done, w) && IsRun(w, steps)
    ensures RequestsInv(done + steps, Final(w, steps))
    decreases |steps|
  {
    hide Inv;
    hide RequestsInv;
    if steps == [] {
      assert done + steps == done;
    } else {
      RequestsKept(done, w, steps[0]);
      StepKeeps(w, steps[0]);
      RequestsOverRun(done + [steps[0]], Apply(w, steps[0]), steps[1..]);
      assert done + [steps[0]] + steps[1..] == done + steps;
    }
  }

  // ---- The lines ----

  /** The tags put on a snapshot since it was published. */
  function TagsPut(log: seq<Entry>, id: Id): seq<Bytes>
  {
    if log == [] then []
    else
      match log[|log| - 1].update
      case Publish(s) => if s.id == id then [] else TagsPut(log[..|log| - 1], id)
      case AddTag(x, tag) => TagsPut(log[..|log| - 1], id) + (if x == id then [tag] else [])
      case Prune(_) => TagsPut(log[..|log| - 1], id)
  }

  /** The line was published with its time and without tags, and has the tags put on it since. */
  ghost predicate LineOf(done: seq<Step>, log: seq<Entry>, s: Summary)
  {
    s.tags == TagsPut(log, s.id) && exists p, plan :: StartCreate(p, plan) in done && plan.id == s.id && plan.createdAt == s.createdAt
  }

  lemma {:induction false} LinesOf(done: seq<Step>, log: seq<Entry>)
    requires AllFulfil(done, log)
    ensures forall s :: s in Replay(log) ==> LineOf(done, log, s)
    decreases |log|
  {
    if log != [] {
      var n := |log| - 1;
      var before := Replay(log[..n]);
      FulfilledBefore(done, log);
      LinesOf(done, log[..n]);
      assert Replay(log) == ApplyUpdate(before, log[n].update);
      assert Fulfils(done, before, log[n].update) by {
        assert log[..n] == log[..|log| - 1];
      }
      forall s | s in Replay(log) ensures LineOf(done, log, s) {
        LineAfter(done, log, before, s);
      }
    }
  }

  lemma FulfilledBefore(done: seq<Step>, log: seq<Entry>)
    requires AllFulfil(done, log) && log != []
    ensures AllFulfil(done, log[..|log| - 1])
  {
    hide Fulfils;
    hide Replay;
    var init := log[..|log| - 1];
    forall i | 0 <= i < |init| ensures Fulfils(done, Replay(init[..i]), init[i].update) {
      assert init[..i] == log[..i];
    }
  }

  lemma LineAfter(done: seq<Step>, log: seq<Entry>, before: seq<Summary>, s: Summary)
    requires log != [] && forall x :: x in before ==> LineOf(done, log[..|log| - 1], x)
    requires Fulfils(done, before, log[|log| - 1].update) && s in ApplyUpdate(before, log[|log| - 1].update)
    ensures LineOf(done, log, s)
  {
    hide NewTag;
    hide IsKeepChoice;
    match log[|log| - 1].update
    case Publish(line) =>
      if s in before {
        assert s.id in IndexIds(before);
      } else {
        assert s == line;
      }
    case AddTag(id, tag) =>
      var i :| 0 <= i < |before| && TagById(before, id, tag)[i] == s;
      assert before[i] in before && LineOf(done, log[..|log| - 1], before[i]);
    case Prune(keep) =>
      KeptMembers(before, keep, s);
  }

  /** After any run, crashes included: every update of the index was asked for by the start of a Create, a Tag or a GC; no
      two Creates share an ID; and every line of the index has the time its Create was started with, just the tags put on it
      since, and its Create's content on record. */
  lemma IndexIsWhatWasAskedFor(steps: seq<Step>)
    requires IsRun(EMPTY_WORLD, steps)
    ensures var w := After(steps);
      && AllFulfil(steps, w.log)
      && (forall i, j :: 0 <= i < j < |steps| && steps[i].StartCreate? && steps[j].StartCreate? ==> steps[i].plan.id != steps[j].plan.id)
      && forall s :: s in w.store.index ==> LineOf(steps, w.log, s)
    ensures var w := After(steps); forall p, plan :: StartCreate(p, plan) in steps ==>
      plan.id in w.content && w.content[plan.id] == plan.content
  {
    InvEmpty();
    RequestsEmpty();
    hide Inv;
    hide RequestsInv;
    hide LineOf;
    hide Replay;
    RequestsOverRun([], EMPTY_WORLD, steps);
    assert [] + steps == steps;
    RequestsAre(steps, After(steps));
    hide AllFulfil;
    NoUpdateIsLost(steps);
    LinesOf(steps, After(steps).log);
  }

  lemma RequestsEmpty()
    ensures RequestsInv([], EMPTY_WORLD)
  {
  }

  lemma RequestsAre(done: seq<Step>, w: World)
    requires RequestsInv(done, w)
    ensures AllFulfil(done, w.log) && PlansInv(done, w)
  {
  }

  lemma OthersStay(w: World, step: Step)
    requires Enabled(w, step)
    ensures WritesIndex(step) ==> step.p in w.procs
  {
  }
}
