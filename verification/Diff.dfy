/** Comparing two snapshots: a merge join over ID-sorted doc-ref streams. */
module Diff {
  import opened ByteStrings
  import opened DocRefs
  import opened ExtSort

  datatype ChangeType = Added | Removed | Modified

  datatype Event = Event(kind: ChangeType, id: Bytes)

  /** The events of a full merge join of two lists. */
  function DiffEvents(f: seq<DocRef>, t: seq<DocRef>): seq<Event>
    decreases |f| + |t|
  {
    if f == [] && t == [] then []
    else if t == [] || (f != [] && Less(f[0].id, t[0].id)) then
      [Event(Removed, f[0].id)] + DiffEvents(f[1..], t)
    else if f == [] || Less(t[0].id, f[0].id) then
      [Event(Added, t[0].id)] + DiffEvents(f, t[1..])
    else
      (if f[0].hash != t[0].hash then [Event(Modified, f[0].id)] else []) + DiffEvents(f[1..], t[1..])
  }

  lemma StepRemoved(f: seq<DocRef>, t: seq<DocRef>)
    requires f != [] && (t == [] || Less(f[0].id, t[0].id))
    ensures DiffEvents(f, t) == [Event(Removed, f[0].id)] + DiffEvents(f[1..], t)
  {
  }

  lemma StepAdded(f: seq<DocRef>, t: seq<DocRef>)
    requires t != [] && (f == [] || Less(t[0].id, f[0].id))
    ensures DiffEvents(f, t) == [Event(Added, t[0].id)] + DiffEvents(f, t[1..])
  {
  }

  lemma StepSame(f: seq<DocRef>, t: seq<DocRef>)
    requires f != [] && t != [] && !Less(f[0].id, t[0].id) && !Less(t[0].id, f[0].id)
    ensures f[0].id == t[0].id
    ensures DiffEvents(f, t) == (if f[0].hash != t[0].hash then [Event(Modified, f[0].id)] else []) + DiffEvents(f[1..], t[1..])
  {
    LessTotal(f[0].id, t[0].id);
  }

  // ---- What the events mean, in terms of the two ID-to-hash maps ----

  predicate IsChange(f: map<Bytes, Hash>, t: map<Bytes, Hash>, e: Event)
  {
    match e.kind
    case Added => e.id in t && e.id !in f
    case Removed => e.id in f && e.id !in t
    case Modified => e.id in f && e.id in t && f[e.id] != t[e.id]
  }

  ghost predicate InOrder(events: seq<Event>)
  {
    forall i, j :: 0 <= i < j < |events| ==> Less(events[i].id, events[j].id)
  }

  /** The head of a strictly sorted list is below every ID of the rest. */
  lemma HeadBelowTail(s: seq<DocRef>, x: Bytes)
    requires StrictlySorted(s) && s != [] && x in ToMap(s[1..])
    ensures Less(s[0].id, x)
  {
  }

  lemma TailMap(s: seq<DocRef>, x: Bytes)
    requires StrictlySorted(s) && s != []
    ensures StrictlySorted(s[1..]) && s[0].id !in ToMap(s[1..])
    ensures x in ToMap(s) <==> x == s[0].id || x in ToMap(s[1..])
    ensures x in ToMap(s) ==> ToMap(s)[x] == if x == s[0].id then s[0].hash else ToMap(s[1..])[x]
  {
  }

  lemma NotBelowHead(s: seq<DocRef>, x: Bytes)
    requires StrictlySorted(s) && (s != [] ==> Less(x, s[0].id))
    ensures x !in ToMap(s)
  {
    hide Less;
    LessIrreflexive(x);
    if s != [] && x in ToMap(s) {
      TailMap(s, x);
      if x in ToMap(s[1..]) {
        HeadBelowTail(s, x);
        LessAsymmetric(x, s[0].id);
      }
    }
  }

  /** On strictly sorted lists an event is emitted exactly when it describes a difference of the two maps. */
  lemma {:induction false} EventsAreChanges(f: seq<DocRef>, t: seq<DocRef>, e: Event)
    requires StrictlySorted(f) && StrictlySorted(t)
    ensures e in DiffEvents(f, t) <==> IsChange(ToMap(f), ToMap(t), e)
    decreases |f| + |t|
  {
    hide Less;
    hide StrictlySorted;
    hide ToMap;
    hide DiffEvents;
    if f == [] && t == [] {
      NoRefs(f);
      NoRefs(t);
    } else if t == [] || (f != [] && Less(f[0].id, t[0].id)) {
      StepRemoved(f, t);
      TailMap(f, e.id);
      NotBelowHead(t, f[0].id);
      EventsAreChanges(f[1..], t, e);
    } else if f == [] || Less(t[0].id, f[0].id) {
      StepAdded(f, t);
      TailMap(t, e.id);
      NotBelowHead(f, t[0].id);
      EventsAreChanges(f, t[1..], e);
    } else {
      StepSame(f, t);
      TailMap(f, e.id);
      TailMap(t, e.id);
      EventsAreChanges(f[1..], t[1..], e);
    }
  }

  lemma NoRefs(s: seq<DocRef>)
    requires s == []
    ensures ToMap(s) == map[] && DiffEvents(s, s) == []
  {
  }

  /** Every event concerns an ID not below either head, so the events come out in increasing ID order. */
  lemma {:induction false} EventsInOrder(f: seq<DocRef>, t: seq<DocRef>)
    requires StrictlySorted(f) && StrictlySorted(t)
    ensures InOrder(DiffEvents(f, t))
    decreases |f| + |t|
  {
    hide Less;
    hide StrictlySorted;
    hide ToMap;
    if f == [] && t == [] {
    } else if t == [] || (f != [] && Less(f[0].id, t[0].id)) {
      TailMap(f, []);
      EventsInOrder(f[1..], t);
      EventsAbove(f[0].id, f, t, DiffEvents(f[1..], t), f[1..], t);
    } else if f == [] || Less(t[0].id, f[0].id) {
      TailMap(t, []);
      EventsInOrder(f, t[1..]);
      EventsAbove(t[0].id, f, t, DiffEvents(f, t[1..]), f, t[1..]);
    } else {
      LessTotal(f[0].id, t[0].id);
      TailMap(f, []);
      TailMap(t, []);
      EventsInOrder(f[1..], t[1..]);
      EventsAbove(f[0].id, f, t, DiffEvents(f[1..], t[1..]), f[1..], t[1..]);
    }
  }

  lemma EventsAbove(x: Bytes, f: seq<DocRef>, t: seq<DocRef>, rest: seq<Event>, f': seq<DocRef>, t': seq<DocRef>)
    requires StrictlySorted(f) && StrictlySorted(t) && rest == DiffEvents(f', t')
    requires f' == f && f != [] ==> Less(x, f[0].id)
    requires t' == t && t != [] ==> Less(x, t[0].id)
    requires f' == f || (f != [] && f' == f[1..] && f[0].id == x)
    requires t' == t || (t != [] && t' == t[1..] && t[0].id == x)
    ensures forall e :: e in rest ==> Less(x, e.id)
  {
    hide Less;
    if f != [] { TailMap(f, x); }
    if t != [] { TailMap(t, x); }
    forall e | e in rest
      ensures Less(x, e.id)
    {
      EventsAreChanges(f', t', e);
      if e.id in ToMap(f') {
        AboveHead(x, f, f', e.id);
      } else {
        AboveHead(x, t, t', e.id);
      }
    }
  }

  lemma AboveHead(x: Bytes, s: seq<DocRef>, s': seq<DocRef>, y: Bytes)
    requires StrictlySorted(s) && y in ToMap(s')
    requires s' == s && s != [] ==> Less(x, s[0].id)
    requires s' == s || (s != [] && s' == s[1..] && s[0].id == x)
    ensures Less(x, y)
  {
    hide Less;
    if s' == s {
      assert s != [] by { if s == [] { NoRefs(s); } }
      TailMap(s, y);
      if y != s[0].id {
        HeadBelowTail(s, y);
        LessTransitive(x, s[0].id, y);
      }
    } else {
      HeadBelowTail(s, y);
    }
  }

  // ---- Counts ----

  function Matches(kind: ChangeType, events: seq<Event>): seq<Bytes>
  {
    if events == [] then []
    else (if events[0].kind == kind then [events[0].id] else []) + Matches(kind, events[1..])
  }

  lemma {:induction false} MatchesMembers(kind: ChangeType, events: seq<Event>, x: Bytes)
    ensures x in Matches(kind, events) <==> Event(kind, x) in events
  {
    if events != [] {
      MatchesMembers(kind, events[1..], x);
    }
  }

  lemma {:induction false} MatchesDistinct(kind: ChangeType, events: seq<Event>)
    requires InOrder(events)
    ensures forall i, j :: 0 <= i < j < |Matches(kind, events)| ==> Less(Matches(kind, events)[i], Matches(kind, events)[j])
  {
    hide Less;
    if events != [] {
      MatchesDistinct(kind, events[1..]);
      forall x | x in Matches(kind, events[1..])
        ensures Less(events[0].id, x)
      {
        MatchesMembers(kind, events[1..], x);
        assert Event(kind, x) in events[1..];
      }
    }
  }

  lemma {:induction false} DistinctCount(ids: seq<Bytes>, s: set<Bytes>)
    requires forall i, j :: 0 <= i < j < |ids| ==> ids[i] != ids[j]
    requires forall x :: x in s <==> x in ids
    ensures |ids| == |s|
  {
    if ids == [] {
      assert s == {};
    } else {
      assert ids[0] in s;
      DistinctCount(ids[1..], s - {ids[0]});
    }
  }

  ghost function ChangedIds(kind: ChangeType, f: map<Bytes, Hash>, t: map<Bytes, Hash>): set<Bytes>
  {
    match kind
    case Added => t.Keys - f.Keys
    case Removed => f.Keys - t.Keys
    case Modified => set x | x in f && x in t && f[x] != t[x]
  }

  /** The number of events of each kind is the size of the corresponding map difference. */
  lemma CountsAreCardinalities(f: seq<DocRef>, t: seq<DocRef>, kind: ChangeType)
    requires StrictlySorted(f) && StrictlySorted(t)
    ensures |Matches(kind, DiffEvents(f, t))| == |ChangedIds(kind, ToMap(f), ToMap(t))|
  {
    hide Less;
    hide DiffEvents;
    hide ToMap;
    var events := DiffEvents(f, t);
    EventsInOrder(f, t);
    MatchesDistinct(kind, events);
    var ids := Matches(kind, events);
    forall i, j | 0 <= i < j < |ids| ensures ids[i] != ids[j] {
      LessIrreflexive(ids[i]);
    }
    forall x
      ensures x in ChangedIds(kind, ToMap(f), ToMap(t)) <==> x in ids
    {
      MatchesMembers(kind, events, x);
      EventsAreChanges(f, t, Event(kind, x));
    }
    DistinctCount(ids, ChangedIds(kind, ToMap(f), ToMap(t)));
  }

  /** No events exactly when the two lists stand for the same map. */
  lemma NoEventsIffSameMap(f: seq<DocRef>, t: seq<DocRef>)
    requires StrictlySorted(f) && StrictlySorted(t)
    ensures DiffEvents(f, t) == [] <==> ToMap(f) == ToMap(t)
  {
    hide Less;
    hide DiffEvents;
    hide ToMap;
    var events := DiffEvents(f, t);
    if events == [] {
      forall x
        ensures x in ToMap(f) <==> x in ToMap(t)
        ensures x in ToMap(f) ==> ToMap(f)[x] == ToMap(t)[x]
      {
        EventsAreChanges(f, t, Event(Added, x));
        EventsAreChanges(f, t, Event(Removed, x));
        EventsAreChanges(f, t, Event(Modified, x));
      }
    } else {
      EventsAreChanges(f, t, events[0]);
    }
  }

  // ---- Replay and reversal ----

  /** Apply the events to `m`, taking the contents of added and modified IDs from `t`. */
  function Replay(m: map<Bytes, Hash>, events: seq<Event>, t: map<Bytes, Hash>): map<Bytes, Hash>
    decreases |events|
  {
    if events == [] then m
    else
      var e := events[0];
      Replay(if e.kind != Removed && e.id in t then m[e.id := t[e.id]] else m - {e.id}, events[1..], t)
  }

  lemma {:induction false} ReplayAt(m: map<Bytes, Hash>, events: seq<Event>, t: map<Bytes, Hash>, x: Bytes)
    requires InOrder(events)
    requires forall e :: e in events ==> (e.kind == Removed <==> e.id !in t)
    ensures x in Replay(m, events, t) <==> if exists e :: e in events && e.id == x then x in t else x in m
    ensures x in Replay(m, events, t) ==>
      Replay(m, events, t)[x] == if exists e :: e in events && e.id == x then t[x] else m[x]
    decreases |events|
  {
    hide Less;
    if events != [] {
      var e := events[0];
      var m' := if e.kind != Removed && e.id in t then m[e.id := t[e.id]] else m - {e.id};
      ReplayAt(m', events[1..], t, x);
      LessIrreflexive(x);
    }
  }

  /** Replaying the diff on the from-state gives the to-state. */
  lemma ReplayReachesTarget(f: seq<DocRef>, t: seq<DocRef>)
    requires StrictlySorted(f) && StrictlySorted(t)
    ensures Replay(ToMap(f), DiffEvents(f, t), ToMap(t)) == ToMap(t)
  {
    hide Less;
    hide DiffEvents;
    hide ToMap;
    hide Replay;
    var events := DiffEvents(f, t);
    EventsInOrder(f, t);
    forall e | e in events ensures e.kind == Removed <==> e.id !in ToMap(t) {
      EventsAreChanges(f, t, e);
    }
    forall x
      ensures x in Replay(ToMap(f), events, ToMap(t)) <==> x in ToMap(t)
      ensures x in ToMap(t) ==> Replay(ToMap(f), events, ToMap(t))[x] == ToMap(t)[x]
    {
      ReplayAt(ToMap(f), events, ToMap(t), x);
      EventsAreChanges(f, t, Event(Added, x));
      EventsAreChanges(f, t, Event(Removed, x));
      EventsAreChanges(f, t, Event(Modified, x));
    }
  }

  function Flip(events: seq<Event>): seq<Event>
  {
    if events == [] then []
    else
      var kind := match events[0].kind case Added => Removed case Removed => Added case Modified => Modified;
      [Event(kind, events[0].id)] + Flip(events[1..])
  }

  /** Comparing the other way round swaps added and removed, and changes nothing else. */
  lemma {:induction false} SwapSides(f: seq<DocRef>, t: seq<DocRef>)
    ensures DiffEvents(t, f) == Flip(DiffEvents(f, t))
    decreases |f| + |t|
  {
    hide Less;
    if f == [] && t == [] {
    } else if t == [] || (f != [] && Less(f[0].id, t[0].id)) {
      if t != [] { LessAsymmetric(f[0].id, t[0].id); }
      SwapSides(f[1..], t);
    } else if f == [] || Less(t[0].id, f[0].id) {
      SwapSides(f, t[1..]);
    } else {
      LessTotal(f[0].id, t[0].id);
      SwapSides(f[1..], t[1..]);
      assert DiffEvents(f, t) == (if f[0].hash != t[0].hash then [Event(Modified, f[0].id)] else []) + DiffEvents(f[1..], t[1..]);
      if f[0].hash != t[0].hash {
        assert DiffEvents(f, t)[1..] == DiffEvents(f[1..], t[1..]);
      } else {
        assert [] + DiffEvents(f[1..], t[1..]) == DiffEvents(f[1..], t[1..]);
      }
    }
  }

  // ---- The merge join itself ----

  /** How a join ended: at the end of both inputs, on a cancelled context, or because the callback refused a change. */
  datatype Outcome = Done | Cancelled | Refused

  /** `s` is what is left of one side: the ref already read from it, then what its iterator holds. */
  ghost predicate Ahead(s: seq<DocRef>, ref: DocRef, ok: bool, pending: seq<DocRef>)
  {
    if ok then s != [] && s[0] == ref && s[1..] == pending else s == [] && pending == []
  }

  /** The polls so far found nothing cancelled, the callback has taken `events` without complaint, and joining `f` and `t`
      will complete `all`. */
  ghost predicate Joining(events: seq<Event>, cancelled: nat -> bool, polls: nat, refuses: nat -> bool,
                          f: seq<DocRef>, t: seq<DocRef>, all: seq<Event>)
  {
    && events + DiffEvents(f, t) == all
    && (forall n: nat :: n < |events| ==> !refuses(n))
    && forall n: nat :: n < polls ==> !cancelled(n)
  }

  /** What a join reports: a prefix of all changes, all of them if it ran to the end, nothing after a refusal or a poll
      that found the context cancelled, and an early end only for a reason. */
  ghost predicate Answers(events: seq<Event>, outcome: Outcome, all: seq<Event>, cancelled: nat -> bool, refuses: nat -> bool)
  {
    && events <= all
    && (outcome.Done? ==> events == all)
    && (outcome.Cancelled? ==> exists n: nat :: cancelled(n))
    && (outcome.Refused? ==> events != [] && refuses(|events| - 1))
    && (forall n: nat :: n < |events| && refuses(n) ==> outcome.Refused? && n == |events| - 1)
    && (forall n: nat :: cancelled(n) ==> |events| <= n)
  }

  lemma Emit(events: seq<Event>, cancelled: nat -> bool, polls: nat, refuses: nat -> bool, f: seq<DocRef>, t: seq<DocRef>, e: Event,
             f': seq<DocRef>, t': seq<DocRef>, all: seq<Event>)
    requires Joining(events, cancelled, polls, refuses, f, t, all) && |events| < polls
    requires DiffEvents(f, t) == [e] + DiffEvents(f', t')
    ensures refuses(|events|) ==> Answers(events + [e], Refused, all, cancelled, refuses)
    ensures !refuses(|events|) ==> Joining(events + [e], cancelled, polls, refuses, f', t', all)
  {
    hide DiffEvents;
    assert events + ([e] + DiffEvents(f', t')) == events + [e] + DiffEvents(f', t');
  }

  lemma Stop(events: seq<Event>, cancelled: nat -> bool, polls: nat, refuses: nat -> bool, f: seq<DocRef>, t: seq<DocRef>,
             all: seq<Event>)
    requires Joining(events, cancelled, polls, refuses, f, t, all) && |events| <= polls
    ensures if cancelled(polls) then Answers(events, Cancelled, all, cancelled, refuses) else Joining(events, cancelled, polls + 1, refuses, f, t, all)
    ensures f == [] && t == [] ==> Answers(events, Done, all, cancelled, refuses)
  {
  }

  /** mergeJoin. `cancelled(n)` is what the n-th poll of the context says; `refuses(n)` says whether the callback
      returns an error for the n-th change. `events` are the changes the callback was called with. */
  method MergeJoin(cancelled: nat -> bool, fromIt: SliceIterator, toIt: SliceIterator, refuses: nat -> bool)
    returns (events: seq<Event>, outcome: Outcome)
    requires fromIt.Valid() && toIt.Valid() && fromIt != toIt
    modifies fromIt, toIt
    ensures Answers(events, outcome, DiffEvents(old(fromIt.Pending()), old(toIt.Pending())), cancelled, refuses)
  {
    hide *;
    ghost var f, t := fromIt.Pending(), toIt.Pending();
    ghost var all := DiffEvents(f, t);
    events := [];
    var polls: nat := 0;
    Start(cancelled, refuses, f, t);
    var fRef, fOK := fromIt.Next();
    var tRef, tOK := toIt.Next();
    ReadAhead(f, fRef, fOK, fromIt.Pending());
    ReadAhead(t, tRef, tOK, toIt.Pending());
    while fOK && tOK
      invariant fromIt.Valid() && toIt.Valid()
      invariant Ahead(f, fRef, fOK, fromIt.Pending()) && Ahead(t, tRef, tOK, toIt.Pending())
      invariant Joining(events, cancelled, polls, refuses, f, t, all) && |events| <= polls
      decreases |f| + |t|
    {
      AheadIs(f, fRef, fOK, fromIt.Pending());
      AheadIs(t, tRef, tOK, toIt.Pending());
      Stop(events, cancelled, polls, refuses, f, t, all);
      if cancelled(polls) {
        return events, Cancelled;
      }
      polls := polls + 1;
      if Less(fRef.id, tRef.id) {
        StepRemoved(f, t);
        Emit(events, cancelled, polls, refuses, f, t, Event(Removed, fRef.id), f[1..], t, all);
        events := events + [Event(Removed, fRef.id)];
        if refuses(|events| - 1) {
          return events, Refused;
        }
        f := f[1..];
        fRef, fOK := fromIt.Next();
        ReadAhead(f, fRef, fOK, fromIt.Pending());
      } else if Less(tRef.id, fRef.id) {
        StepAdded(f, t);
        Emit(events, cancelled, polls, refuses, f, t, Event(Added, tRef.id), f, t[1..], all);
        events := events + [Event(Added, tRef.id)];
        if refuses(|events| - 1) {
          return events, Refused;
        }
        t := t[1..];
        tRef, tOK := toIt.Next();
        ReadAhead(t, tRef, tOK, toIt.Pending());
      } else {
        StepSame(f, t);
        if fRef.hash != tRef.hash {
          Emit(events, cancelled, polls, refuses, f, t, Event(Modified, fRef.id), f[1..], t[1..], all);
          events := events + [Event(Modified, fRef.id)];
          if refuses(|events| - 1) {
            return events, Refused;
          }
        } else {
          SameAgain(events, cancelled, polls, refuses, f, t, all);
        }
        f, t := f[1..], t[1..];
        fRef, fOK := fromIt.Next();
        ReadAhead(f, fRef, fOK, fromIt.Pending());
        tRef, tOK := toIt.Next();
        ReadAhead(t, tRef, tOK, toIt.Pending());
      }
    }
    AheadIs(f, fRef, fOK, fromIt.Pending());
    AheadIs(t, tRef, tOK, toIt.Pending());
    while fOK
      invariant fromIt.Valid() && Ahead(f, fRef, fOK, fromIt.Pending())
      invariant toIt.Valid() && Ahead(t, tRef, tOK, toIt.Pending()) && (fOK ==> t == [])
      invariant Joining(events, cancelled, polls, refuses, f, t, all) && |events| <= polls
      decreases |f|
    {
      AheadIs(f, fRef, fOK, fromIt.Pending());
      Stop(events, cancelled, polls, refuses, f, t, all);
      if cancelled(polls) {
        return events, Cancelled;
      }
      polls := polls + 1;
      StepRemoved(f, t);
      Emit(events, cancelled, polls, refuses, f, t, Event(Removed, fRef.id), f[1..], t, all);
      events := events + [Event(Removed, fRef.id)];
      if refuses(|events| - 1) {
        return events, Refused;
      }
      f := f[1..];
      fRef, fOK := fromIt.Next();
      ReadAhead(f, fRef, fOK, fromIt.Pending());
    }
    AheadIs(f, fRef, fOK, fromIt.Pending());
    while tOK
      invariant toIt.Valid() && Ahead(t, tRef, tOK, toIt.Pending()) && f == []
      invariant Joining(events, cancelled, polls, refuses, f, t, all) && |events| <= polls
      decreases |t|
    {
      AheadIs(t, tRef, tOK, toIt.Pending());
      Stop(events, cancelled, polls, refuses, f, t, all);
      if cancelled(polls) {
        return events, Cancelled;
      }
      polls := polls + 1;
      StepAdded(f, t);
      Emit(events, cancelled, polls, refuses, f, t, Event(Added, tRef.id), f, t[1..], all);
      events := events + [Event(Added, tRef.id)];
      if refuses(|events| - 1) {
        return events, Refused;
      }
      t := t[1..];
      tRef, tOK := toIt.Next();
      ReadAhead(t, tRef, tOK, toIt.Pending());
    }
    AheadIs(t, tRef, tOK, toIt.Pending());
    Stop(events, cancelled, polls, refuses, f, t, all);
    return events, Done;
  }

  lemma Start(cancelled: nat -> bool, refuses: nat -> bool, f: seq<DocRef>, t: seq<DocRef>)
    ensures Joining([], cancelled, 0, refuses, f, t, DiffEvents(f, t))
  {
  }

  /** Reading one ref ahead. */
  lemma ReadAhead(s: seq<DocRef>, ref: DocRef, ok: bool, pending: seq<DocRef>)
    requires if ok then s != [] && ref == s[0] && pending == s[1..] else s == [] && pending == []
    ensures Ahead(s, ref, ok, pending)
  {
  }

  lemma AheadIs(s: seq<DocRef>, ref: DocRef, ok: bool, pending: seq<DocRef>)
    requires Ahead(s, ref, ok, pending)
    ensures if ok then s != [] && ref == s[0] && pending == s[1..] else s == [] && pending == []
  {
  }

  lemma SameAgain(events: seq<Event>, cancelled: nat -> bool, polls: nat, refuses: nat -> bool, f: seq<DocRef>, t: seq<DocRef>,
                  all: seq<Event>)
    requires Joining(events, cancelled, polls, refuses, f, t, all)
    requires f != [] && t != [] && DiffEvents(f, t) == [] + DiffEvents(f[1..], t[1..])
    ensures Joining(events, cancelled, polls, refuses, f[1..], t[1..], all)
  {
    assert [] + DiffEvents(f[1..], t[1..]) == DiffEvents(f[1..], t[1..]);
  }
}
