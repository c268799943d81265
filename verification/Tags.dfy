/** A tag stands in two files, the index and the snapshot's manifest. Where the two can differ, over every run. */
module Tags {
  import opened ByteStrings
  import opened DocRefs
  import opened Scope
  import opened Protocol
  import opened Lifecycle
  import opened Durability
  import opened Requests

  /** The process has written its tag to this snapshot's manifest, and not yet to the index. */
  predicate Tagging(c: Proc, id: Id)
  {
    c.TagWritten? && c.at < |c.idx| && c.idx[c.at].id == id
  }

  /** The manifest has one tag more than the line, one that a Tag was asked to put on. */
  ghost predicate OneTagAhead(done: seq<Step>, inManifest: seq<Bytes>, inLine: seq<Bytes>)
  {
    exists p, query, tag :: StartTag(p, query, tag) in done && inManifest == inLine + [tag]
  }

  /** `whole` says that no Tag has stopped between its two writes. */
  ghost predicate SameTags(done: seq<Step>, w: World, whole: bool, s: Summary)
    requires s.id in w.store.manifests
  {
    || w.store.manifests[s.id].tags == s.tags
    || (exists p :: p in w.procs && Tagging(w.procs[p], s.id))
    || (!whole && OneTagAhead(done, w.store.manifests[s.id].tags, s.tags))
  }

  ghost predicate TagsInv(done: seq<Step>, w: World, whole: bool)
  {
    && (forall s :: s in w.store.index && s.id in w.store.manifests ==> SameTags(done, w, whole, s))
    && (forall id :: id in w.store.manifests && id !in IndexIds(w.store.index) ==> w.store.manifests[id].tags == [])
    && (forall p :: p in w.procs && w.procs[p].TagWritten? ==> TagIsIn(w.store.manifests, w.procs[p]))
  }

  predicate TagIsIn(manifests: map<Id, Manifest>, c: Proc)
    requires c.TagWritten?
  {
    c.at < |c.idx| && (c.idx[c.at].id in manifests ==> manifests[c.idx[c.at].id].tags == c.idx[c.at].tags + [c.tag])
  }

  /** No process at this point stops between the two writes of a tag. */
  ghost predicate NotInside(w: World, step: Step)
  {
    step.Crash? || step.Return? ==> IsAt(w, step.p) && !w.procs[step.p].TagWritten?
  }

  ghost predicate TagsComplete(w: World, steps: seq<Step>)
    requires IsRun(w, steps)
    decreases |steps|
  {
    steps != [] ==> NotInside(w, steps[0]) && TagsComplete(Apply(w, steps[0]), steps[1..])
  }

  // ---- One more step ----

  lemma StillAhead(done: seq<Step>, step: Step, inManifest: seq<Bytes>, inLine: seq<Bytes>)
    requires OneTagAhead(done, inManifest, inLine)
    ensures OneTagAhead(done + [step], inManifest, inLine)
  {
    assert forall s :: s in done ==> s in done + [step];
  }

  predicate WritesTags(step: Step)
  {
    step.SaveManifest? || step.TagManifest? || step.SaveTag? || step.SaveKept? || step.PublishIndex? || step.RemoveAbandoned? ||
    step.PruneManifest?
  }

  /** Other steps leave index, manifests and the processes in mid-tag alone. */
  lemma QuietStepTags(w: World, step: Step)
    requires Enabled(w, step) && !WritesTags(step) && NotInside(w, step) && forall p :: p in w.procs ==> p in w.started
    ensures var w' := Apply(w, step); w'.store.index == w.store.index && w'.store.manifests == w.store.manifests
    ensures var w' := Apply(w, step);
      && (forall p :: p in w.procs && w.procs[p].TagWritten? ==> p in w'.procs && w'.procs[p] == w.procs[p])
      && (forall p :: p in w'.procs && w'.procs[p].TagWritten? ==> p in w.procs && w'.procs[p] == w.procs[p])
  {
    hide FindSpec;
    hide HoldsBolt;
    hide HoldsLock;
  }

  /** Fewer manifests, and otherwise the same: nothing to disagree about. */
  lemma QuietTags(done: seq<Step>, w: World, step: Step, w': World, whole: bool)
    requires TagsInv(done, w, whole) && w'.store.index == w.store.index
    requires forall id :: id in w'.store.manifests ==> id in w.store.manifests && w'.store.manifests[id] == w.store.manifests[id]
    requires forall p :: p in w.procs && w.procs[p].TagWritten? ==> p in w'.procs && w'.procs[p] == w.procs[p]
    requires forall p :: p in w'.procs && w'.procs[p].TagWritten? ==> p in w.procs && w'.procs[p] == w.procs[p]
    ensures TagsInv(done + [step], w', whole)
  {
    hide OneTagAhead;
    hide IndexIds;
    forall s | s in w'.store.index && s.id in w'.store.manifests ensures SameTags(done + [step], w', whole, s) {
      assert SameTags(done, w, whole, s);
      if OneTagAhead(done, w.store.manifests[s.id].tags, s.tags) {
        StillAhead(done, step, w.store.manifests[s.id].tags, s.tags);
      }
    }
  }

  lemma Stopped(w: World, step: Step)
    requires Enabled(w, step) && (step.Crash? || step.Return?)
    ensures var w' := Apply(w, step);
      w'.store == w.store && forall q :: q != step.p ==> (q in w'.procs <==> q in w.procs) && (q in w.procs ==> w'.procs[q] == w.procs[q])
    ensures var w' := Apply(w, step); step.p in w'.procs ==> !w'.procs[step.p].TagWritten?
  {
  }

  /** A Tag that stops between its two writes leaves its snapshot's manifest one tag ahead. */
  lemma StopsInside(done: seq<Step>, w: World, step: Step)
    requires Enabled(w, step) && (step.Crash? || step.Return?) && w.procs[step.p].TagWritten?
    requires LockView(w.store.index, w.procs[step.p]) && AskedFor(done, step.p, w.procs[step.p]) && DistinctIndex(w.store.index)
    requires TagsInv(done, w, false)
    ensures TagsInv(done + [step], Apply(w, step), false)
  {
    var (c, w') := (w.procs[step.p], Apply(w, step));
    Stopped(w, step);
    hide Apply;
    hide Enabled;
    hide IndexIds;
    forall s | s in w'.store.index && s.id in w'.store.manifests ensures SameTags(done + [step], w', false, s) {
      assert SameTags(done, w, false, s);
      if Tagging(c, s.id) {
        SameSummary(w.store.index, s, c.idx[c.at]);
        var query :| StartTag(step.p, query, c.tag) in done && NewTag(c.idx, query, c.tag, c.at);
        assert OneTagAhead(done, w.store.manifests[s.id].tags, s.tags);
      }
      hide OneTagAhead;
      if OneTagAhead(done, w.store.manifests[s.id].tags, s.tags) {
        StillAhead(done, step, w.store.manifests[s.id].tags, s.tags);
      }
    }
  }

  /** A step of the only process inside, or of one that changes no tag of an indexed snapshot: what is left is to look at one
      snapshot. */
  lemma OtherTags(done: seq<Step>, w: World, step: Step, w': World, whole: bool, s: Summary)
    requires s.id in w.store.manifests && SameTags(done, w, whole, s)
    requires s.id in w'.store.manifests && w'.store.manifests[s.id] == w.store.manifests[s.id]
    requires forall p :: p in w.procs && Tagging(w.procs[p], s.id) ==> p in w'.procs && w'.procs[p] == w.procs[p]
    ensures SameTags(done + [step], w', whole, s)
  {
    hide OneTagAhead;
    hide Tagging;
    if OneTagAhead(done, w.store.manifests[s.id].tags, s.tags) {
      StillAhead(done, step, w.store.manifests[s.id].tags, s.tags);
    }
  }

  lemma SaveManifestTags(done: seq<Step>, w: World, p: Pid, whole: bool)
    requires Inv(w) && TagsInv(done, w, whole) && Enabled(w, SaveManifest(p))
    ensures TagsInv(done + [SaveManifest(p)], Apply(w, SaveManifest(p)), whole)
  {
    var (step, w', id) := (SaveManifest(p), Apply(w, SaveManifest(p)), w.procs[p].plan.id);
    assert BoltView(w, w.procs[p]) && id !in IndexIds(w.store.index);
    forall q | q in w.procs && w.procs[q].TagWritten? ensures w.procs[q].at < |w.store.index| && w.procs[q].idx == w.store.index {
      assert LockView(w.store.index, w.procs[q]);
    }
    assert w'.store.index == w.store.index && w'.store.manifests == w.store.manifests[id := Manifest(CountsOf(w.procs[p].plan.content), [])];
    assert w'.procs == w.procs[p := Saved(w.procs[p].plan)];
    hide Inv;
    hide Apply;
    hide Enabled;
    forall s | s in w'.store.index && s.id in w'.store.manifests ensures SameTags(done + [step], w', whole, s) {
      OtherTags(done, w, step, w', whole, s);
    }
    hide SameTags;
    forall q | q in w'.procs && w'.procs[q].TagWritten? ensures TagIsIn(w'.store.manifests, w'.procs[q]) {
      assert w.procs[q].idx[w.procs[q].at] in w.store.index;
    }
  }

  /** Nobody else is inside. */
  lemma OnlyInside(w: World, p: Pid)
    requires LocksInv(w) && p in w.procs && HoldsLock(w.procs[p])
    ensures forall q :: q in w.procs && w.procs[q].TagWritten? ==> q == p
  {
    hide HoldsBolt;
  }

  lemma TagManifestTags(done: seq<Step>, w: World, p: Pid, whole: bool)
    requires Inv(w) && TagsInv(done, w, whole) && Enabled(w, TagManifest(p))
    ensures TagsInv(done + [TagManifest(p)], Apply(w, TagManifest(p)), whole)
  {
    var (step, w', c) := (TagManifest(p), Apply(w, TagManifest(p)), w.procs[p]);
    assert LockView(w.store.index, c);
    OnlyInside(w, p);
    var at := FindSpec(c.idx, c.query);
    var id := c.idx[at].id;
    assert w'.procs == w.procs[p := TagWritten(at, c.tag, c.idx)] && w'.store.index == w.store.index;
    assert w'.store.manifests == w.store.manifests[id := w.store.manifests[id].(tags := c.idx[at].tags + [c.tag])];
    hide Inv;
    hide Apply;
    hide Enabled;
    hide FindSpec;
    assert c.idx[at] in w.store.index;
    forall s | s in w'.store.index && s.id in w'.store.manifests ensures SameTags(done + [step], w', whole, s) {
      if s.id == id {
        assert Tagging(w'.procs[p], id);
      } else {
        OtherTags(done, w, step, w', whole, s);
      }
    }
    hide SameTags;
  }

  lemma SaveTagTags(done: seq<Step>, w: World, p: Pid, whole: bool)
    requires Inv(w) && TagsInv(done, w, whole) && Enabled(w, SaveTag(p))
    ensures TagsInv(done + [SaveTag(p)], Apply(w, SaveTag(p)), whole)
  {
    var (step, w', c) := (SaveTag(p), Apply(w, SaveTag(p)), w.procs[p]);
    assert LockView(w.store.index, c);
    OnlyInside(w, p);
    SameIdsTagged(w.store.index, c.at, c.tag);
    assert w'.procs == w.procs[p := Leaving(false, true)] && w'.store == w.store.(index := WithTag(w.store.index, c.at, c.tag));
    assert DistinctIndex(w.store.index);
    hide Inv;
    hide Apply;
    hide Enabled;
    hide IndexIds;
    forall s | s in w'.store.index && s.id in w'.store.manifests ensures SameTags(done + [step], w', whole, s) {
      var i :| 0 <= i < |w'.store.index| && w'.store.index[i] == s;
      if i == c.at {
        assert s.tags == c.idx[c.at].tags + [c.tag];
      } else {
        assert s == w.store.index[i] && s in w.store.index && s.id != c.idx[c.at].id;
        OtherTags(done, w, step, w', whole, s);
      }
    }
    hide SameTags;
  }

  lemma SavedKept(w: World, p: Pid)
    requires Inv(w) && Enabled(w, SaveKept(p))
    ensures var (w', c) := (Apply(w, SaveKept(p)), w.procs[p]);
      && w'.store == w.store.(index := Kept(w.store.index, c.keep)) && w'.procs == w.procs[p := GcMark(c.keepLast, c.start, c.keep)]
      && w.store.manifests.Keys <= IndexIds(w'.store.index)
  {
    var (w', c) := (Apply(w, SaveKept(p)), w.procs[p]);
    assert BoltView(w, c);
    SaveKeptView(w, p);
    KeptIds(c.start.index, c.keep);
    hide Inv;
    hide IndexIds;
    hide Kept;
    hide SameFor;
    hide IsKeepChoice;
  }

  lemma SaveKeptTags(done: seq<Step>, w: World, p: Pid, whole: bool)
    requires Inv(w) && TagsInv(done, w, whole) && Enabled(w, SaveKept(p))
    ensures TagsInv(done + [SaveKept(p)], Apply(w, SaveKept(p)), whole)
  {
    var (step, w', c) := (SaveKept(p), Apply(w, SaveKept(p)), w.procs[p]);
    OnlyInside(w, p);
    SavedKept(w, p);
    hide Inv;
    hide Apply;
    hide Enabled;
    hide Kept;
    hide IndexIds;
    forall s | s in w'.store.index && s.id in w'.store.manifests ensures SameTags(done + [step], w', whole, s) {
      KeptMembers(w.store.index, c.keep, s);
      OtherTags(done, w, step, w', whole, s);
    }
    hide SameTags;
  }

  lemma PublishTags(done: seq<Step>, w: World, p: Pid, whole: bool)
    requires Inv(w) && TagsInv(done, w, whole) && Enabled(w, PublishIndex(p))
    ensures TagsInv(done + [PublishIndex(p)], Apply(w, PublishIndex(p)), whole)
  {
    var (step, w', c) := (PublishIndex(p), Apply(w, PublishIndex(p)), w.procs[p]);
    assert BoltView(w, c) && LockView(w.store.index, c);
    PublishIndexView(w, p);
    OnlyInside(w, p);
    var line := Summary(c.plan.id, [], c.plan.createdAt);
    assert w'.store == w.store.(index := w.store.index + [line]) && w'.procs == w.procs[p := Leaving(true, true)];
    hide Inv;
    hide Apply;
    hide Enabled;
    forall s | s in w'.store.index && s.id in w'.store.manifests ensures SameTags(done + [step], w', whole, s) {
      if s in w.store.index {
        OtherTags(done, w, step, w', whole, s);
      }
    }
    hide SameTags;
    assert forall s :: s in w.store.index ==> s in w'.store.index;
  }

  lemma DropTags(done: seq<Step>, w: World, step: Step, whole: bool)
    requires Inv(w) && TagsInv(done, w, whole) && Enabled(w, step) && (step.RemoveAbandoned? || step.PruneManifest?)
    ensures TagsInv(done + [step], Apply(w, step), whole)
  {
    hide Inv;
    hide TagsInv;
    hide FindSpec;
    QuietTags(done, w, step, Apply(w, step), whole);
  }

  lemma TagsKept(done: seq<Step>, w: World, step: Step, whole: bool)
    requires Inv(w) && RequestsInv(done, w) && TagsInv(done, w, whole) && Enabled(w, step) && (whole ==> NotInside(w, step))
    ensures TagsInv(done + [step], Apply(w, step), whole)
  {
    hide Inv;
    hide RequestsInv;
    hide TagsInv;
    hide NotInside;
    hide Apply;
    hide Enabled;
    match step {
      case SaveManifest(p) => SaveManifestTags(done, w, p, whole);
      case TagManifest(p) => TagManifestTags(done, w, p, whole);
      case SaveTag(p) => SaveTagTags(done, w, p, whole);
      case SaveKept(p) => SaveKeptTags(done, w, p, whole);
      case PublishIndex(p) => PublishTags(done, w, p, whole);
      case RemoveAbandoned(_) => DropTags(done, w, step, whole);
      case PruneManifest(_) => DropTags(done, w, step, whole);
      case _ =>
        WhoIsInside(done, w);
        RestTags(done, w, step, whole);
    }
  }

  lemma WhoIsInside(done: seq<Step>, w: World)
    requires Inv(w) && RequestsInv(done, w)
    ensures forall p :: p in w.procs ==> p in w.started && LockView(w.store.index, w.procs[p]) && AskedFor(done, p, w.procs[p])
    ensures DistinctIndex(w.store.index)
  {
    hide LockView;
    hide AskedFor;
    hide BoltView;
    hide LogInv;
    hide PublishedInv;
    hide DistinctIndex;
  }

  lemma RestTags(done: seq<Step>, w: World, step: Step, whole: bool)
    requires TagsInv(done, w, whole) && Enabled(w, step) && !WritesTags(step) && (whole ==> NotInside(w, step))
    requires forall p :: p in w.procs ==> p in w.started && LockView(w.store.index, w.procs[p]) && AskedFor(done, p, w.procs[p])
    requires DistinctIndex(w.store.index)
    ensures TagsInv(done + [step], Apply(w, step), whole)
  {
    hide TagsInv;
    hide Apply;
    hide LockView;
    hide AskedFor;
    hide DistinctIndex;
    if NotInside(w, step) {
      QuietStepTags(w, step);
      QuietTags(done, w, step, Apply(w, step), whole);
    } else {
      StopsInside(done, w, step);
    }
  }

  lemma {:induction false} TagsOverRun(done: seq<Step>, w: World, steps: seq<Step>, whole: bool)
    requires Inv(w) && RequestsInv(done, w) && TagsInv(done, w, whole) && IsRun(w, steps) && (whole ==> TagsComplete(w, steps))
    ensures TagsInv(done + steps, Final(w, steps), whole)
    decreases |steps|
  {
    hide Inv;
    hide TagsInv;
    hide RequestsInv;
    hide NotInside;
    hide Apply;
    hide Enabled;
    if steps == [] {
      assert done + steps == done;
    } else {
      TagsKept(done, w, steps[0], whole);
      RequestsKept(done, w, steps[0]);
      StepKeeps(w, steps[0]);
      TagsOverRun(done + [steps[0]], Apply(w, steps[0]), steps[1..], whole);
      assert done + [steps[0]] + steps[1..] == done + steps;
    }
  }

  /** After any run, crashes included, an indexed snapshot's manifest has the tags of its line, or those and one more that
      some Tag was asked to put on. If no Tag has stopped between its two writes, the two lists are the same, except on the
      one snapshot that a Tag at work is writing to. */
  lemma TagsAgree(steps: seq<Step>)
    requires IsRun(EMPTY_WORLD, steps)
    ensures var w := After(steps); forall s :: s in w.store.index && s.id in w.store.manifests ==>
      w.store.manifests[s.id].tags == s.tags || OneTagAhead(steps, w.store.manifests[s.id].tags, s.tags)
    ensures TagsComplete(EMPTY_WORLD, steps) ==> var w := After(steps); forall s :: s in w.store.index && s.id in w.store.manifests ==>
      w.store.manifests[s.id].tags == s.tags || exists p :: p in w.procs && Tagging(w.procs[p], s.id)
  {
    InvEmpty();
    assert RequestsInv([], EMPTY_WORLD);
    assert TagsInv([], EMPTY_WORLD, true) && TagsInv([], EMPTY_WORLD, false);
    assert [] + steps == steps;
    hide TagsInv;
    hide Inv;
    hide RequestsInv;
    TagsOverRun([], EMPTY_WORLD, steps, false);
    RequestsOverRun([], EMPTY_WORLD, steps);
    AfterInv(steps);
    TagsNow(steps, After(steps), false);
    if TagsComplete(EMPTY_WORLD, steps) {
      TagsOverRun([], EMPTY_WORLD, steps, true);
      TagsNow(steps, After(steps), true);
    }
  }

  lemma TagsNow(done: seq<Step>, w: World, whole: bool)
    requires Inv(w) && RequestsInv(done, w) && TagsInv(done, w, whole)
    ensures forall s :: s in w.store.index && s.id in w.store.manifests && w.store.manifests[s.id].tags != s.tags ==>
      if whole then exists p :: p in w.procs && Tagging(w.procs[p], s.id) else OneTagAhead(done, w.store.manifests[s.id].tags, s.tags)
  {
    assert DistinctIndex(w.store.index);
    forall s | s in w.store.index && s.id in w.store.manifests && w.store.manifests[s.id].tags != s.tags && !whole
      ensures OneTagAhead(done, w.store.manifests[s.id].tags, s.tags)
    {
      assert SameTags(done, w, whole, s);
      if p :| p in w.procs && Tagging(w.procs[p], s.id) {
        AheadNow(done, w, p, s);
      }
    }
  }

  lemma AheadNow(done: seq<Step>, w: World, p: Pid, s: Summary)
    requires p in w.procs && LockView(w.store.index, w.procs[p]) && AskedFor(done, p, w.procs[p]) && DistinctIndex(w.store.index)
    requires w.procs[p].TagWritten? && TagIsIn(w.store.manifests, w.procs[p])
    requires s in w.store.index && s.id in w.store.manifests && Tagging(w.procs[p], s.id)
    ensures OneTagAhead(done, w.store.manifests[s.id].tags, s.tags)
  {
    var c := w.procs[p];
    SameSummary(w.store.index, s, c.idx[c.at]);
    var query :| StartTag(p, query, c.tag) in done && NewTag(c.idx, query, c.tag, c.at);
  }
}
