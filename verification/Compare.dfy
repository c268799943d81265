/** Whole-snapshot comparison, streaming and paging, all built on the merge join. */
module Compare {
  import opened ByteStrings
  import opened DocRefs
  import opened ExtSort
  import opened Diff
  import opened Permutations

  /** A docRefSource: the ID-sorted list each collection name yields, empty for a name the snapshot lacks. */
  type Source = Bytes -> seq<DocRef>

  datatype CollectionDiff = CollectionDiff(added: nat, removed: nat, modified: nat)
  {
    predicate Empty()
    {
      added == 0 && removed == 0 && modified == 0
    }
  }

  function Counts(events: seq<Event>): CollectionDiff
  {
    CollectionDiff(|Matches(Added, events)|, |Matches(Removed, events)|, |Matches(Modified, events)|)
  }

  lemma {:induction false} MatchesSnoc(kind: ChangeType, events: seq<Event>, e: Event)
    ensures Matches(kind, events + [e]) == if e.kind == kind then Matches(kind, events) + [e.id] else Matches(kind, events)
  {
    if events == [] {
      assert events + [e] == [e];
      assert Matches(kind, [e][1..]) == [];
    } else {
      assert (events + [e])[1..] == events[1..] + [e];
      MatchesSnoc(kind, events[1..], e);
      var head := if events[0].kind == kind then [events[0].id] else [];
      assert Matches(kind, events) == head + Matches(kind, events[1..]);
      assert Matches(kind, events + [e]) == head + Matches(kind, events[1..] + [e]);
    }
  }

  /** diffCollection: counts only, never a list. */
  method DiffCollection(cancelled: nat -> bool, fromIt: SliceIterator, toIt: SliceIterator)
    returns (cd: CollectionDiff, outcome: Outcome)
    requires fromIt.Valid() && toIt.Valid() && fromIt != toIt
    modifies fromIt, toIt
    ensures outcome.Done? ==> cd == Counts(DiffEvents(old(fromIt.Pending()), old(toIt.Pending())))
    ensures !outcome.Done? ==> exists n: nat :: cancelled(n)
  {
    hide Less;
    hide DiffEvents;
    var events;
    events, outcome := MergeJoin(cancelled, fromIt, toIt, (n: nat) => false);
    cd := CollectionDiff(0, 0, 0);
    for i := 0 to |events|
      invariant cd == Counts(events[..i])
    {
      assert events[..i + 1] == events[..i] + [events[i]];
      MatchesSnoc(Added, events[..i], events[i]);
      MatchesSnoc(Removed, events[..i], events[i]);
      MatchesSnoc(Modified, events[..i], events[i]);
      match events[i].kind {
        case Added => cd := cd.(added := cd.added + 1);
        case Removed => cd := cd.(removed := cd.removed + 1);
        case Modified => cd := cd.(modified := cd.modified + 1);
      }
    }
    assert events[..|events|] == events;
  }

  /** collectionNames: the union of both sides' names, in order, each once. */
  method CollectionNames(fromNames: set<Bytes>, toNames: set<Bytes>) returns (names: seq<Bytes>)
    ensures forall x :: x in names <==> x in fromNames + toNames
    ensures forall i, j :: 0 <= i < j < |names| ==> Less(names[i], names[j])
  {
    hide Less;
    var left := fromNames + toNames;
    names := [];
    while left != {}
      invariant forall x :: x in fromNames + toNames <==> x in names || x in left
      invariant forall i, j :: 0 <= i < j < |names| ==> Less(names[i], names[j])
      invariant forall i, x :: 0 <= i < |names| && x in left ==> Less(names[i], x)
    {
      var k := Least(left);
      forall x | x in left && x != k ensures Less(k, x) {
        LessTotal(k, x);
      }
      names := names + [k];
      left := left - {k};
    }
  }

  /** The diff two snapshots should give: the counts of every collection that has any. */
  function CompareSpec(names: set<Bytes>, from: Source, to: Source): map<Bytes, CollectionDiff>
  {
    map name | name in names && !Counts(DiffEvents(from(name), to(name))).Empty() :: Counts(DiffEvents(from(name), to(name)))
  }

  /** Compare. `cancelled(name, n)` is the n-th poll of the context while `name` is joined. */
  method CompareSnapshots(cancelled: (Bytes, nat) -> bool, fromNames: set<Bytes>, from: Source, toNames: set<Bytes>, to: Source)
    returns (diff: map<Bytes, CollectionDiff>, ok: bool)
    ensures ok ==> diff == CompareSpec(fromNames + toNames, from, to)
    ensures !ok ==> exists name, n: nat :: cancelled(name, n)
  {
    hide Less;
    hide DiffEvents;
    hide Counts;
    var names := CollectionNames(fromNames, toNames);
    diff := map[];
    for i := 0 to |names|
      invariant diff == CompareSpec(Members(names[..i]), from, to)
    {
      var name := names[i];
      var fromIt := new SliceIterator(from(name));
      var toIt := new SliceIterator(to(name));
      var cd, outcome := DiffCollection((n: nat) => cancelled(name, n), fromIt, toIt);
      if !outcome.Done? {
        ghost var n: nat :| cancelled(name, n);
        return map[], false;
      }
      LessIrreflexive(name);
      CompareSpecNext(names, i, from, to);
      if !cd.Empty() {
        diff := diff[name := cd];
      }
    }
    assert Members(names[..|names|]) == fromNames + toNames;
    return diff, true;
  }

  lemma CompareSpecNext(names: seq<Bytes>, i: nat, from: Source, to: Source)
    requires i < |names| && forall j :: 0 <= j < i ==> names[j] != names[i]
    ensures var cd := Counts(DiffEvents(from(names[i]), to(names[i])));
      var done := CompareSpec(Members(names[..i]), from, to);
      CompareSpec(Members(names[..i + 1]), from, to) == if cd.Empty() then done else done[names[i] := cd]
  {
  }

  /** Diff.Empty. */
  predicate NoDifferences(diff: map<Bytes, CollectionDiff>)
  {
    forall name :: name in diff ==> diff[name].Empty()
  }

  ghost predicate SortedSource(names: set<Bytes>, s: Source)
  {
    forall name :: name in names ==> StrictlySorted(s(name))
  }

  /** Compare counts the map differences: a collection is listed exactly when its two ID-to-hash maps differ, with
      the sizes of the three parts of the difference; and the diff is empty exactly when all maps agree. */
  lemma CompareCountsMapDifferences(names: set<Bytes>, from: Source, to: Source)
    requires SortedSource(names, from) && SortedSource(names, to)
    ensures var diff := CompareSpec(names, from, to);
      && (forall name :: name in names ==> (name in diff <==> ToMap(from(name)) != ToMap(to(name))))
      && (forall name :: name in diff ==> name in names && diff[name] == CollectionDiff(
            |ChangedIds(Added, ToMap(from(name)), ToMap(to(name)))|,
            |ChangedIds(Removed, ToMap(from(name)), ToMap(to(name)))|,
            |ChangedIds(Modified, ToMap(from(name)), ToMap(to(name)))|))
      && (NoDifferences(diff) <==> forall name :: name in names ==> ToMap(from(name)) == ToMap(to(name)))
  {
    hide Less;
    hide DiffEvents;
    hide ToMap;
    hide ChangedIds;
    hide StrictlySorted;
    forall name | name in names
      ensures Counts(DiffEvents(from(name), to(name))).Empty() <==> ToMap(from(name)) == ToMap(to(name))
      ensures Counts(DiffEvents(from(name), to(name))) == CollectionDiff(
                |ChangedIds(Added, ToMap(from(name)), ToMap(to(name)))|,
                |ChangedIds(Removed, ToMap(from(name)), ToMap(to(name)))|,
                |ChangedIds(Modified, ToMap(from(name)), ToMap(to(name)))|)
    {
      var f, t := from(name), to(name);
      CountsAreCardinalities(f, t, Added);
      CountsAreCardinalities(f, t, Removed);
      CountsAreCardinalities(f, t, Modified);
      NoEventsIffSameMap(f, t);
      NoMatchesNoEvents(DiffEvents(f, t));
    }
  }

  lemma NoMatchesNoEvents(events: seq<Event>)
    ensures Counts(events).Empty() <==> events == []
  {
  }

  // ---- Streaming ----

  datatype Change = Change(collection: Bytes, event: Event)

  function Tag(name: Bytes, events: seq<Event>): (cs: seq<Change>)
    ensures |cs| == |events| && forall i :: 0 <= i < |cs| ==> cs[i] == Change(name, events[i])
  {
    seq(|events|, i requires 0 <= i < |events| => Change(name, events[i]))
  }

  /** Every change of every collection, in collection-name order. */
  function StreamSpec(names: seq<Bytes>, from: Source, to: Source): seq<Change>
  {
    if names == [] then []
    else StreamSpec(names[..|names| - 1], from, to) +
         Tag(names[|names| - 1], DiffEvents(from(names[|names| - 1]), to(names[|names| - 1])))
  }

  ghost predicate Before(a: Change, b: Change)
  {
    Less(a.collection, b.collection) || (a.collection == b.collection && Less(a.event.id, b.event.id))
  }

  /** The stream is strictly increasing by collection, then by document ID. */
  lemma {:induction false} StreamInOrder(names: seq<Bytes>, from: Source, to: Source)
    requires forall i, j :: 0 <= i < j < |names| ==> Less(names[i], names[j])
    requires forall i :: 0 <= i < |names| ==> StrictlySorted(from(names[i])) && StrictlySorted(to(names[i]))
    ensures forall c :: c in StreamSpec(names, from, to) ==> c.collection in names
    ensures forall i, j :: 0 <= i < j < |StreamSpec(names, from, to)| ==> Before(StreamSpec(names, from, to)[i], StreamSpec(names, from, to)[j])
    decreases |names|
  {
    hide Less;
    hide DiffEvents;
    hide StrictlySorted;
    if names != [] {
      var n := |names| - 1;
      StreamInOrder(names[..n], from, to);
      EventsInOrder(from(names[n]), to(names[n]));
      var head := StreamSpec(names[..n], from, to);
      forall i | 0 <= i < |head| ensures Less(head[i].collection, names[n]) {
        assert head[i] in head;
      }
    }
  }

  /** The change takes that collection's from-list towards its to-list. */
  ghost predicate IsChangeIn(names: set<Bytes>, from: Source, to: Source, x: Change)
  {
    x.collection in names && IsChange(ToMap(from(x.collection)), ToMap(to(x.collection)), x.event)
  }

  /** What is in the stream: exactly the changes between each collection's two lists. */
  lemma {:induction false} StreamHasChanges(names: seq<Bytes>, from: Source, to: Source, x: Change)
    requires SortedSource(Members(names), from) && SortedSource(Members(names), to)
    ensures x in StreamSpec(names, from, to) <==> IsChangeIn(Members(names), from, to, x)
    decreases |names|
  {
    hide StrictlySorted;
    hide DiffEvents;
    hide ToMap;
    hide IsChange;
    if names != [] {
      var n := |names| - 1;
      assert names == names[..n] + [names[n]];
      assert names[n] in Members(names);
      StreamHasChanges(names[..n], from, to, x);
      EventsAreChanges(from(names[n]), to(names[n]), x.event);
      TaggedHas(names[n], DiffEvents(from(names[n]), to(names[n])), x);
    }
  }

  lemma TaggedHas(name: Bytes, events: seq<Event>, x: Change)
    ensures x in Tag(name, events) <==> x.collection == name && x.event in events
  {
    if x.collection == name && x.event in events {
      var i :| 0 <= i < |events| && events[i] == x.event;
      assert Tag(name, events)[i] == x;
    }
  }

  /** The callback has seen changes between the two sides only, in order, and all of them if the stream came to its end. */
  ghost predicate Streamed(seen: seq<Change>, names: set<Bytes>, from: Source, to: Source, done: bool)
  {
    && (forall x :: x in seen ==> IsChangeIn(names, from, to, x))
    && (forall i, j :: 0 <= i < j < |seen| ==> Before(seen[i], seen[j]))
    && (done ==> forall x :: IsChangeIn(names, from, to, x) ==> x in seen)
  }

  lemma StreamedIs(seen: seq<Change>, names: seq<Bytes>, from: Source, to: Source, done: bool)
    requires forall i, j :: 0 <= i < j < |names| ==> Less(names[i], names[j])
    requires SortedSource(Members(names), from) && SortedSource(Members(names), to)
    requires seen <= StreamSpec(names, from, to) && (done ==> seen == StreamSpec(names, from, to))
    ensures Streamed(seen, Members(names), from, to, done)
  {
    hide StrictlySorted;
    hide StreamSpec;
    hide Before;
    hide Less;
    hide IsChangeIn;
    forall i | 0 <= i < |names| ensures StrictlySorted(from(names[i])) && StrictlySorted(to(names[i])) {
      assert names[i] in Members(names);
    }
    StreamInOrder(names, from, to);
    forall x ensures x in StreamSpec(names, from, to) <==> IsChangeIn(Members(names), from, to, x) {
      StreamHasChanges(names, from, to, x);
    }
  }

  /** StreamDiff: the callback sees a prefix of the stream, and all of it when nothing stops it. */
  method StreamDiff(cancelled: (Bytes, nat) -> bool, fromNames: set<Bytes>, from: Source, toNames: set<Bytes>, to: Source,
                    refuses: nat -> bool)
    returns (seen: seq<Change>, ghost names: seq<Bytes>, outcome: Outcome)
    ensures forall x :: x in names <==> x in fromNames + toNames
    ensures forall i, j :: 0 <= i < j < |names| ==> Less(names[i], names[j])
    ensures seen <= StreamSpec(names, from, to)
    ensures outcome.Done? ==> seen == StreamSpec(names, from, to)
    ensures SortedSource(fromNames + toNames, from) && SortedSource(fromNames + toNames, to) ==>
      Streamed(seen, fromNames + toNames, from, to, outcome.Done?)
    ensures (forall name, n: nat :: !cancelled(name, n)) && (forall n: nat :: !refuses(n)) ==> outcome.Done?
  {
    hide Less;
    hide DiffEvents;
    var list := CollectionNames(fromNames, toNames);
    names := list;
    seen, outcome := [], Done;
    assert list[..0] == [];
    for i := 0 to |list|
      invariant seen == StreamSpec(list[..i], from, to) && outcome.Done?
    {
      var name := list[i];
      var fromIt := new SliceIterator(from(name));
      var toIt := new SliceIterator(to(name));
      var base := |seen|;
      ghost var all := DiffEvents(from(name), to(name));
      var events;
      events, outcome := MergeJoin((n: nat) => cancelled(name, n), fromIt, toIt, (n: nat) => refuses(base + n));
      assert list[..i + 1][..i] == list[..i];
      assert StreamSpec(list[..i + 1], from, to) == seen + Tag(name, all);
      StreamPrefix(list, i + 1, from, to);
      assert Tag(name, events) <= Tag(name, all);
      seen := seen + Tag(name, events);
      if !outcome.Done? {
        WhatWasSeen(seen, list, fromNames + toNames, from, to, false);
        return;
      }
    }
    assert list[..|list|] == list;
    WhatWasSeen(seen, list, fromNames + toNames, from, to, true);
  }

  lemma WhatWasSeen(seen: seq<Change>, list: seq<Bytes>, names: set<Bytes>, from: Source, to: Source, done: bool)
    requires forall x :: x in list <==> x in names
    requires forall i, j :: 0 <= i < j < |list| ==> Less(list[i], list[j])
    requires seen <= StreamSpec(list, from, to) && (done ==> seen == StreamSpec(list, from, to))
    ensures SortedSource(names, from) && SortedSource(names, to) ==> Streamed(seen, names, from, to, done)
  {
    assert Members(list) == names;
    if SortedSource(names, from) && SortedSource(names, to) {
      hide *;
      StreamedIs(seen, list, from, to, done);
    }
  }

  lemma {:induction false} StreamPrefix(names: seq<Bytes>, i: nat, from: Source, to: Source)
    requires i <= |names|
    ensures StreamSpec(names[..i], from, to) <= StreamSpec(names, from, to)
    decreases |names|
  {
    if i == |names| {
      assert names[..i] == names;
    } else {
      assert names[..|names| - 1][..i] == names[..i];
      StreamPrefix(names[..|names| - 1], i, from, to);
    }
  }

  // ---- Paging ----

  const DIFF_PAGE_MAX_LIMIT: int := 500

  function ClampOffset(offset: int): nat
  {
    if offset < 0 then 0 else offset
  }

  function ClampLimit(limit: int): (n: nat)
    ensures 1 <= n <= DIFF_PAGE_MAX_LIMIT
  {
    if limit <= 0 || limit > DIFF_PAGE_MAX_LIMIT then DIFF_PAGE_MAX_LIMIT else limit
  }

  function Page(ids: seq<Bytes>, offset: nat, limit: nat): seq<Bytes>
  {
    if offset >= |ids| then [] else if offset + limit <= |ids| then ids[offset..offset + limit] else ids[offset..]
  }

  /** The page that an offset and a limit as they come in stand for. */
  function PageAsked(ids: seq<Bytes>, offset: int, limit: int): seq<Bytes>
  {
    Page(ids, ClampOffset(offset), ClampLimit(limit))
  }

  /** What the page has: from the offset on, or from the start if that is negative, as many as asked for, or 500 if that
      is no number from 1 to 500, and as many as there are. */
  lemma PageHas(ids: seq<Bytes>, offset: int, limit: int)
    ensures var (page, start) := (PageAsked(ids, offset, limit), if offset < 0 then 0 else offset);
      && (forall i :: 0 <= i < |page| ==> start + i < |ids| && page[i] == ids[start + i])
      && (if 1 <= limit <= 500 then |page| <= limit else |page| <= 500)
      && (|page| < (if 1 <= limit <= 500 then limit else 500) ==> start + |page| >= |ids|)
  {
  }

  lemma PageOfNothing(offset: nat, limit: nat)
    ensures Page([], offset, limit) == []
  {
  }

  lemma PageSnoc(ids: seq<Bytes>, offset: nat, limit: nat, x: Bytes)
    requires limit > 0
    ensures Page(ids + [x], offset, limit) ==
            if |ids| >= offset && |Page(ids, offset, limit)| < limit then Page(ids, offset, limit) + [x] else Page(ids, offset, limit)
  {
  }

  /** DiffCollectionPage: one slice of the collection's changes of one kind, and their full number. */
  method DiffCollectionPage(cancelled: nat -> bool, from: Source, to: Source, collection: Bytes, kind: ChangeType,
                            offset: int, limit: int)
    returns (ids: seq<Bytes>, total: nat, ok: bool)
    ensures ok ==> ids == PageAsked(Matches(kind, DiffEvents(from(collection), to(collection))), offset, limit)
    ensures ok ==> total == |Matches(kind, DiffEvents(from(collection), to(collection)))|
    ensures ok && StrictlySorted(from(collection)) && StrictlySorted(to(collection)) ==>
      && total == |ChangedIds(kind, ToMap(from(collection)), ToMap(to(collection)))|
      && (forall x :: x in ids ==> IsChange(ToMap(from(collection)), ToMap(to(collection)), Event(kind, x)))
      && forall i, j :: 0 <= i < j < |ids| ==> Less(ids[i], ids[j])
    ensures !ok ==> exists n: nat :: cancelled(n)
  {
    hide Less;
    hide DiffEvents;
    hide Page;
    hide PageAsked;
    hide Matches;
    hide ChangedIds;
    hide IsChange;
    hide ToMap;
    hide StrictlySorted;
    NoMatches(kind);
    var off := if offset < 0 then 0 else offset;
    var lim := if limit <= 0 || limit > DIFF_PAGE_MAX_LIMIT then DIFF_PAGE_MAX_LIMIT else limit;
    var fromIt := new SliceIterator(from(collection));
    var toIt := new SliceIterator(to(collection));
    var events, outcome := MergeJoin(cancelled, fromIt, toIt, (n: nat) => false);
    if !outcome.Done? {
      return [], 0, false;
    }
    ids, total := [], 0;
    PageOfNothing(off, lim);
    for i := 0 to |events|
      invariant total == |Matches(kind, events[..i])|
      invariant ids == Page(Matches(kind, events[..i]), off, lim)
    {
      assert events[..i + 1] == events[..i] + [events[i]];
      MatchesSnoc(kind, events[..i], events[i]);
      if events[i].kind == kind {
        PageSnoc(Matches(kind, events[..i]), off, lim, events[i].id);
        if total >= off && |ids| < lim {
          ids := ids + [events[i].id];
        }
        total := total + 1;
      }
    }
    assert events[..|events|] == events;
    ok := true;
    PageAskedIs(Matches(kind, events), offset, limit);
    if StrictlySorted(from(collection)) && StrictlySorted(to(collection)) {
      PageOfChanges(from(collection), to(collection), kind, ids, off, lim);
    }
  }

  lemma NoMatches(kind: ChangeType)
    ensures Matches(kind, []) == []
  {
  }

  lemma PageAskedIs(ids: seq<Bytes>, offset: int, limit: int)
    ensures PageAsked(ids, offset, limit) ==
      Page(ids, if offset < 0 then 0 else offset, if limit <= 0 || limit > DIFF_PAGE_MAX_LIMIT then DIFF_PAGE_MAX_LIMIT else limit)
  {
  }

  lemma PageOfChanges(f: seq<DocRef>, t: seq<DocRef>, kind: ChangeType, ids: seq<Bytes>, offset: nat, limit: nat)
    requires StrictlySorted(f) && StrictlySorted(t) && ids == Page(Matches(kind, DiffEvents(f, t)), offset, limit)
    ensures |Matches(kind, DiffEvents(f, t))| == |ChangedIds(kind, ToMap(f), ToMap(t))|
    ensures forall x :: x in ids ==> IsChange(ToMap(f), ToMap(t), Event(kind, x))
    ensures forall i, j :: 0 <= i < j < |ids| ==> Less(ids[i], ids[j])
  {
    hide StrictlySorted;
    hide DiffEvents;
    hide Less;
    hide ToMap;
    hide ChangedIds;
    hide IsChange;
    var all := Matches(kind, DiffEvents(f, t));
    CountsAreCardinalities(f, t, kind);
    EventsInOrder(f, t);
    MatchesDistinct(kind, DiffEvents(f, t));
    forall x | x in ids ensures IsChange(ToMap(f), ToMap(t), Event(kind, x)) {
      assert x in all;
      MatchesMembers(kind, DiffEvents(f, t), x);
      EventsAreChanges(f, t, Event(kind, x));
    }
  }

  /** Ask for page after page, each starting where the last one ended, until one comes back empty. */
  function Walk(ids: seq<Bytes>, offset: nat, limit: int): seq<Bytes>
    decreases if offset < |ids| then |ids| - offset else 0
  {
    var page := PageAsked(ids, offset, limit);
    if page == [] then [] else page + Walk(ids, offset + |page|, limit)
  }

  /** Walking the pages by returned length gives the whole list, whatever limit is asked for. */
  lemma {:induction false} WalkIsWhole(ids: seq<Bytes>, offset: nat, limit: int)
    requires offset <= |ids|
    ensures Walk(ids, offset, limit) == ids[offset..]
    decreases |ids| - offset
  {
    var page := PageAsked(ids, offset, limit);
    if page != [] {
      WalkIsWhole(ids, offset + |page|, limit);
      assert ids[offset..] == page + ids[offset + |page|..];
    }
  }
}
