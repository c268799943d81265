/** The two critical sections that change index.json without a backend: publishing a snapshot and tagging one. Each is
    the index update the protocol logs for it. */
module Publishing {
  import opened ByteStrings
  import opened Scope
  import opened Protocol
  import opened Lifecycle
  import opened Gc

  datatype TagResult = Tagged(id: Id) | AlreadyTagged(id: Id) | NoSuchSnapshot | ManifestMissing

  /** The end of Create: read the index again, append, write it back. */
  method PublishSnapshot(files: ScopeFiles, summary: Summary)
    modifies files`index
    ensures files.index == ApplyUpdate(old(files.index), Publish(summary))
  {
    var current := files.index;
    files.index := current + [summary];
  }

  /** Some indexed snapshot's ID begins with the query. */
  ghost predicate SomeFits(index: seq<Summary>, query: Bytes)
  {
    exists i :: 0 <= i < |index| && HasPrefix(index[i].id, query)
  }

  /** What publishing does to every lookup: the new snapshot is found by its own ID, and by a prefix nothing else has; a
      prefix that it shares with another snapshot no longer finds anything; all other lookups are as before. */
  lemma FindAfterPublish(index: seq<Summary>, summary: Summary, query: Bytes)
    requires summary.id !in IndexIds(index)
    ensures FindSpec(ApplyUpdate(index, Publish(summary)), query) ==
      if query in IndexIds(index) || !HasPrefix(summary.id, query) then FindSpec(index, query)
      else if summary.id == query || !SomeFits(index, query) then |index|
      else -1
  {
    var after := index + [summary];
    hide FindSpec;
    assert forall i :: 0 <= i < |index| ==> after[i] == index[i];
    if query in IndexIds(index) || !HasPrefix(summary.id, query) {
      OtherLookups(index, summary, query);
    } else if summary.id == query {
      FindExact(after, query, |index|);
    } else if SomeFits(index, query) {
      var i :| 0 <= i < |index| && HasPrefix(index[i].id, query);
      FindAmbiguous(after, query, i, |index|);
    } else {
      FindUnique(after, query, |index|);
    }
  }

  lemma SameAnswer(index: seq<Summary>, summary: Summary, query: Bytes, i: int)
    requires summary.id !in IndexIds(index) && (query in IndexIds(index) || !HasPrefix(summary.id, query))
    ensures Answers(index + [summary], query, i) <==> Answers(index, query, i)
  {
    var after := index + [summary];
    assert forall j :: 0 <= j < |index| ==> after[j] == index[j];
    assert HasPrefix(query, query);
    assert (exists j :: 0 <= j < |after| && after[j].id == query) <==> (exists j :: 0 <= j < |index| && index[j].id == query);
  }

  lemma OtherLookups(index: seq<Summary>, summary: Summary, query: Bytes)
    requires summary.id !in IndexIds(index) && (query in IndexIds(index) || !HasPrefix(summary.id, query))
    ensures FindSpec(index + [summary], query) == FindSpec(index, query)
  {
    var after := index + [summary];
    forall i ensures Answers(after, query, i) <==> Answers(index, query, i) {
      SameAnswer(index, summary, query, i);
    }
    FindAnswers(index, query);
    FindAnswers(after, query);
    hide FindSpec;
    hide Answers;
    if FindSpec(index, query) >= 0 && FindSpec(after, query) >= 0 {
      AnswersUnique(index, query, FindSpec(index, query), FindSpec(after, query));
    }
  }

  /** Tag, inside the scope lock. The ghost result is the place of the snapshot the query names. */
  method Tag(files: ScopeFiles, query: Bytes, tag: Bytes) returns (r: TagResult, ghost at: int)
    requires DistinctIndex(files.index)
    modifies files`index, files`manifests
    ensures if r.NoSuchSnapshot? then forall i :: !Answers(old(files.index), query, i) else Answers(old(files.index), query, at)
    ensures r.AlreadyTagged? ==> r.id == old(files.index)[at].id && tag in old(files.index)[at].tags
    ensures r.ManifestMissing? ==> old(files.index)[at].id !in old(files.manifests) && tag !in old(files.index)[at].tags
    ensures r.Tagged? ==> r.id == old(files.index)[at].id && tag !in old(files.index)[at].tags && r.id in old(files.manifests)
    ensures r.Tagged? ==> files.index == ApplyUpdate(old(files.index), AddTag(r.id, tag))
    ensures r.Tagged? ==> files.manifests == old(files.manifests)[r.id := old(files.manifests)[r.id].(tags := files.index[at].tags)]
    ensures !r.Tagged? ==> files.index == old(files.index) && files.manifests == old(files.manifests)
  {
    var idx := files.index;
    var found := Find(idx, query);
    at := found;
    FindAnswers(idx, query);
    if found < 0 {
      return NoSuchSnapshot, at;
    }
    var summary := idx[found];
    for i := 0 to |summary.tags|
      invariant forall j :: 0 <= j < i ==> summary.tags[j] != tag
    {
      if summary.tags[i] == tag {
        return AlreadyTagged(summary.id), at;
      }
    }
    var tags := summary.tags + [tag];
    if summary.id !in files.manifests {
      return ManifestMissing, at;
    }
    files.manifests := files.manifests[summary.id := files.manifests[summary.id].(tags := tags)];
    files.index := idx[found := summary.(tags := tags)];
    SameIdsTagged(idx, found, tag);
    return Tagged(summary.id), at;
  }

  lemma FindAnswers(index: seq<Summary>, query: Bytes)
    ensures if FindSpec(index, query) < 0 then forall i :: !Answers(index, query, i) else Answers(index, query, FindSpec(index, query))
  {
  }
}
